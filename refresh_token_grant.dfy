/**
 * The `refresh_token` grant of the token endpoint (RFC 6749 section 6):
 * look the token up, narrow the requested scope to the granted one, check
 * the effective scope against the supported and the authorized scopes, and
 * rewrite the token's expiry so that it lapses five minutes from now.
 */
module RefreshTokenGrant {
  import opened Php
  import opened Protocol
  import opened Model
  import opened Scopes

  const GrantType := "refresh_token"

  /** The scope granted with a token: its scope list when non-empty (a
      truthy array), otherwise null. */
  function GrantedScope(rec: RefreshToken): (r: Option<seq<string>>)
    ensures r.None? <==> rec.scope == []
    ensures r.Some? ==> r.value == rec.scope
  {
    if |rec.scope| > 0 then Some(rec.scope) else None
  }

  /** The token the request names, when it passes the format checks, exists,
      belongs to `clientId` and has not expired. */
  predicate Usable(v: Validator, tokens: map<string, RefreshToken>, req: TokenRequest, clientId: string, now: int) {
    && NotBlank(req.refreshToken) && v.refreshToken(req.refreshToken) && v.scope(req.scope)
    && req.refreshToken.value in tokens
    && tokens[req.refreshToken.value].clientId == clientId
    && now <= tokens[req.refreshToken.value].expires
  }

  /** The one path on which the source compares the raw scope string, never
      split, with the supported scopes: a scope is supplied but the token
      has none granted. Its outcome depends on the PHP runtime, so the model
      leaves it out. */
  predicate LeavesScopeUnsplit(v: Validator, tokens: map<string, RefreshToken>, req: TokenRequest, clientId: string, now: int) {
    Usable(v, tokens, req, clientId, now) && req.scope.Some? && GrantedScope(tokens[req.refreshToken.value]).None?
  }

  /** Narrowing: a supplied scope is split and must lie within the granted
      scope; an omitted one inherits the granted scope. */
  function Narrow(scope: Option<string>, granted: Option<seq<string>>): (r: Result<Option<seq<string>>>)
    requires !(scope.Some? && granted.None?)
    ensures scope.Some? ==>
              (r.Ok? <==> forall e :: e in PregSplit(scope.value) ==> e in granted.value)
    ensures scope.Some? && r.Ok? ==> r.value == Some(PregSplit(scope.value))
    ensures scope.Some? && r.Err? ==> r.error == Described(InvalidScope, DescScopeExceeds)
    ensures scope.None? ==> r == Ok(granted)
  {
    if scope.Some? && granted.Some? then
      var s := PregSplit(scope.value);
      IntersectIsIdentityIff(s, granted.value);
      if !IntersectIsIdentity(s, granted.value) then Err(Described(InvalidScope, DescScopeExceeds))
      else Ok(Some(s))
    else Ok(granted)
  }

  /** `checkRefreshToken` up to the expiry rewrite: the stored username and
      the effective scope. */
  function RefreshOutcome(
    v: Validator, tokens: map<string, RefreshToken>, rows: seq<ScopeRow>,
    authorizes: map<(string, string), Authorize>, req: TokenRequest, clientId: string, now: int)
    : (r: Result<(string, Option<seq<string>>)>)
    requires !LeavesScopeUnsplit(v, tokens, req, clientId, now)
    ensures r.Ok? ==> Usable(v, tokens, req, clientId, now)
    ensures r.Ok? ==> r.value.0 == tokens[req.refreshToken.value].username
    ensures r.Ok? && r.value.1.Some? ==>
              && (forall e :: e in r.value.1.value ==> e in tokens[req.refreshToken.value].scope)
              && (forall e :: e in r.value.1.value ==> e in ScopeNames(rows))
              && (forall e :: e in r.value.1.value ==> e in AuthorizedScopes(authorizes, clientId, r.value.0))
    ensures r.Ok? && req.scope.Some? ==> r.value.1 == Some(PregSplit(req.scope.value))
    ensures r.Ok? && req.scope.None? ==> r.value.1 == GrantedScope(tokens[req.refreshToken.value])
  {
    if !(NotBlank(req.refreshToken) && v.refreshToken(req.refreshToken)) then Err(Described(InvalidRequest, DescInvalidValue))
    else if !v.scope(req.scope) then Err(Described(InvalidRequest, DescInvalidValue))
    else
      var t := req.refreshToken.value;
      if t !in tokens || tokens[t].clientId != clientId then Err(Described(InvalidGrant, DescRefreshOtherClient))
      else if tokens[t].expires < now then Err(Described(InvalidGrant, DescRefreshExpired))
      else
        var username := tokens[t].username;
        var scope :- Narrow(req.scope, GrantedScope(tokens[t]));
        if scope.None? then Ok((username, None))
        else
          var supported := ScopeNames(rows);
          var authorized := AuthorizedScopes(authorizes, clientId, username);
          IntersectIsIdentityIff(scope.value, supported);
          IntersectIsIdentityIff(scope.value, authorized);
          if !IntersectIsIdentity(scope.value, supported) then Err(Described(InvalidScope, DescScopeUnknown))
          else if !IntersectIsIdentity(scope.value, authorized) then Err(Described(InvalidScope, DescScopeExceeds))
          else Ok((username, scope))
  }

  /** The failures of `checkRefreshToken`, in the order they are tested. */
  lemma RefreshOutcomeErrors(
    v: Validator, tokens: map<string, RefreshToken>, rows: seq<ScopeRow>,
    authorizes: map<(string, string), Authorize>, req: TokenRequest, clientId: string, now: int)
    requires !LeavesScopeUnsplit(v, tokens, req, clientId, now)
    ensures var r := RefreshOutcome(v, tokens, rows, authorizes, req, clientId, now);
            && (!(NotBlank(req.refreshToken) && v.refreshToken(req.refreshToken) && v.scope(req.scope)) ==>
                  r == Err(Described(InvalidRequest, DescInvalidValue)))
            && (NotBlank(req.refreshToken) && v.refreshToken(req.refreshToken) && v.scope(req.scope) ==>
                  && (req.refreshToken.value !in tokens || tokens[req.refreshToken.value].clientId != clientId ==>
                        r == Err(Described(InvalidGrant, DescRefreshOtherClient)))
                  && (req.refreshToken.value in tokens && tokens[req.refreshToken.value].clientId == clientId
                      && tokens[req.refreshToken.value].expires < now ==>
                        r == Err(Described(InvalidGrant, DescRefreshExpired))))
  {
  }

  /** With a supplied scope, narrowing comes first: one element outside the
      granted scope is `InvalidScope` "exceeds", whatever the scope table
      and the authorize records hold. */
  lemma ScopeBeyondGrantRefused(
    v: Validator, tokens: map<string, RefreshToken>, rows: seq<ScopeRow>,
    authorizes: map<(string, string), Authorize>, req: TokenRequest, clientId: string, now: int, e: string)
    requires Usable(v, tokens, req, clientId, now) && |tokens[req.refreshToken.value].scope| > 0
    requires req.scope.Some? && e in PregSplit(req.scope.value) && e !in tokens[req.refreshToken.value].scope
    ensures RefreshOutcome(v, tokens, rows, authorizes, req, clientId, now) == Err(Described(InvalidScope, DescScopeExceeds))
  {
  }

  /** A non-null effective scope is then checked against the supported
      scopes, and next against the authorized scopes. */
  lemma EffectiveScopeChecks(
    v: Validator, tokens: map<string, RefreshToken>, rows: seq<ScopeRow>,
    authorizes: map<(string, string), Authorize>, req: TokenRequest, clientId: string, now: int)
    requires Usable(v, tokens, req, clientId, now) && |tokens[req.refreshToken.value].scope| > 0
    ensures var rec := tokens[req.refreshToken.value];
            var s := if req.scope.Some? then PregSplit(req.scope.value) else rec.scope;
            var r := RefreshOutcome(v, tokens, rows, authorizes, req, clientId, now);
            && (forall e :: e in s ==> e in rec.scope) ==>
                 && ((exists e :: e in s && e !in ScopeNames(rows)) ==>
                       r == Err(Described(InvalidScope, DescScopeUnknown)))
                 && ((forall e :: e in s ==> e in ScopeNames(rows))
                     && (exists e :: e in s && e !in AuthorizedScopes(authorizes, clientId, rec.username)) ==>
                       r == Err(Described(InvalidScope, DescScopeExceeds)))
                 && ((forall e :: e in s ==> e in ScopeNames(rows))
                     && (forall e :: e in s ==> e in AuthorizedScopes(authorizes, clientId, rec.username)) ==>
                       r == Ok((rec.username, Some(s))))
  {
    var rec := tokens[req.refreshToken.value];
    var s := if req.scope.Some? then PregSplit(req.scope.value) else rec.scope;
    IntersectIsIdentityIff(s, ScopeNames(rows));
    IntersectIsIdentityIff(s, AuthorizedScopes(authorizes, clientId, rec.username));
  }

  /** With no scope supplied and none granted the result is a null scope, and
      neither the scope table nor the authorize records are consulted. */
  lemma NoScopeSkipsStores(
    v: Validator, tokens: map<string, RefreshToken>, req: TokenRequest, clientId: string, now: int,
    rows: seq<ScopeRow>, authorizes: map<(string, string), Authorize>,
    rows': seq<ScopeRow>, authorizes': map<(string, string), Authorize>)
    requires Usable(v, tokens, req, clientId, now)
    requires req.scope.None? && tokens[req.refreshToken.value].scope == []
    ensures RefreshOutcome(v, tokens, rows, authorizes, req, clientId, now)
            == RefreshOutcome(v, tokens, rows', authorizes', req, clientId, now)
            == Ok((tokens[req.refreshToken.value].username, None))
  {
  }

  /** The token store after a successful refresh: the record stays, with
      only its expiry set to five minutes from now. */
  function Rotate(tokens: map<string, RefreshToken>, t: string, now: int): (after: map<string, RefreshToken>)
    requires t in tokens
    ensures after.Keys == tokens.Keys
    ensures after[t].expires == now + RefreshRotation
    ensures after[t].(expires := tokens[t].expires) == tokens[t]
    ensures forall k :: k in tokens && k != t ==> after[k] == tokens[k]
  {
    tokens[t := tokens[t].(expires := now + RefreshRotation)]
  }

  /** `checkRefreshToken` as the source runs it: the supported scopes are
      collected by a loop, and on success the record's expiry is rewritten
      in place. */
  method CheckRefreshToken(store: Store, v: Validator, req: TokenRequest, clientId: string, now: int)
    returns (r: Result<(string, Option<seq<string>>)>)
    requires !LeavesScopeUnsplit(v, store.refreshTokens, req, clientId, now)
    modifies store`refreshTokens
    ensures r == RefreshOutcome(v, old(store.refreshTokens), store.scopes, store.authorizes, req, clientId, now)
    ensures store.refreshTokens
            == (if r.Ok? then Rotate(old(store.refreshTokens), req.refreshToken.value, now) else old(store.refreshTokens))
  {
    if !(NotBlank(req.refreshToken) && v.refreshToken(req.refreshToken)) {
      return Err(Described(InvalidRequest, DescInvalidValue));
    }
    if !v.scope(req.scope) {
      return Err(Described(InvalidRequest, DescInvalidValue));
    }
    var t := req.refreshToken.value;
    if t !in store.refreshTokens || store.refreshTokens[t].clientId != clientId {
      return Err(Described(InvalidGrant, DescRefreshOtherClient));
    } else if store.refreshTokens[t].expires < now {
      return Err(Described(InvalidGrant, DescRefreshExpired));
    }
    var result := store.refreshTokens[t];
    var username := result.username;
    var scopeGranted: Option<seq<string>> := None;
    if |result.scope| > 0 {
      scopeGranted := Some(result.scope);
    }
    var scope: Option<seq<string>> := None;
    if req.scope.Some? && scopeGranted.Some? {
      var s := PregSplit(req.scope.value);
      if !IntersectIsIdentity(s, scopeGranted.value) {
        return Err(Described(InvalidScope, DescScopeExceeds));
      }
      scope := Some(s);
    } else if scopeGranted.Some? {
      scope := scopeGranted;
    }
    if scope.Some? {
      var supported := CollectSupportedScopes(store.scopes);
      if !IntersectIsIdentity(scope.value, supported) {
        return Err(Described(InvalidScope, DescScopeUnknown));
      }
      var authorized := AuthorizedScopes(store.authorizes, clientId, username);
      if !IntersectIsIdentity(scope.value, authorized) {
        return Err(Described(InvalidScope, DescScopeExceeds));
      }
    }
    store.refreshTokens := store.refreshTokens[t := result.(expires := now + RefreshRotation)];
    r := Ok((username, scope));
  }

  /** The grant over a store snapshot: the response and the token store after
      it. `clientCheck` is the outcome of the inherited client check. */
  function Refresh(
    v: Validator, tokens: map<string, RefreshToken>, rows: seq<ScopeRow>,
    authorizes: map<(string, string), Authorize>, clientCheck: Result<string>, req: TokenRequest,
    now: int, issue: Issuer)
    : (t: Transition<map<string, RefreshToken>>)
    requires clientCheck.Ok? ==> !LeavesScopeUnsplit(v, tokens, req, clientCheck.value, now)
    ensures t.response.Err? ==> t.after == tokens
    ensures clientCheck.Err? ==> t == Transition(Err(clientCheck.error), tokens)
    ensures clientCheck.Ok? && RefreshOutcome(v, tokens, rows, authorizes, req, clientCheck.value, now).Err? ==>
              t.response == Err(RefreshOutcome(v, tokens, rows, authorizes, req, clientCheck.value, now).error)
    ensures t.response.Ok? <==> clientCheck.Ok? && RefreshOutcome(v, tokens, rows, authorizes, req, clientCheck.value, now).Ok?
    ensures t.response.Ok? ==>
              && clientCheck.Ok?
              && Usable(v, tokens, req, clientCheck.value, now)
              && t.after == Rotate(tokens, req.refreshToken.value, now)
              && RefreshOutcome(v, tokens, rows, authorizes, req, clientCheck.value, now).Ok?
              && t.response.value
                 == Json(200, issue(clientCheck.value, tokens[req.refreshToken.value].username,
                                    RefreshOutcome(v, tokens, rows, authorizes, req, clientCheck.value, now).value.1),
                         NoCacheHeaders)
  {
    match clientCheck
    case Err(e) => Transition(Err(e), tokens)
    case Ok(clientId) =>
      match RefreshOutcome(v, tokens, rows, authorizes, req, clientId, now)
      case Err(e) => Transition(Err(e), tokens)
      case Ok(grant) =>
        Transition(Ok(Json(200, issue(clientId, grant.0, grant.1), NoCacheHeaders)),
                   Rotate(tokens, req.refreshToken.value, now))
  }

  /** An expired token is refused and its record is left as it was; a token
      whose expiry is exactly now is still accepted. */
  lemma RefreshExpiry(
    v: Validator, tokens: map<string, RefreshToken>, rows: seq<ScopeRow>,
    authorizes: map<(string, string), Authorize>, clientId: string, req: TokenRequest, now: int, issue: Issuer)
    requires NotBlank(req.refreshToken) && v.refreshToken(req.refreshToken) && v.scope(req.scope)
    requires req.refreshToken.value in tokens && tokens[req.refreshToken.value].clientId == clientId
    requires req.scope.None?
    ensures tokens[req.refreshToken.value].expires < now ==>
              Refresh(v, tokens, rows, authorizes, Ok(clientId), req, now, issue)
              == Transition(Err(Described(InvalidGrant, DescRefreshExpired)), tokens)
    ensures tokens[req.refreshToken.value].expires == now && tokens[req.refreshToken.value].scope == [] ==>
              Refresh(v, tokens, rows, authorizes, Ok(clientId), req, now, issue).response.Ok?
  {
  }

  /** After a refresh at `now` the same token is accepted again up to
      `now` + 5 minutes and refused as expired after that. */
  lemma RotationWindow(
    v: Validator, tokens: map<string, RefreshToken>, rows: seq<ScopeRow>,
    authorizes: map<(string, string), Authorize>, clientId: string, req: TokenRequest,
    now: int, issue: Issuer, later: int, issue': Issuer)
    requires !LeavesScopeUnsplit(v, tokens, req, clientId, now)
    requires Refresh(v, tokens, rows, authorizes, Ok(clientId), req, now, issue).response.Ok?
    ensures var after := Refresh(v, tokens, rows, authorizes, Ok(clientId), req, now, issue).after;
            && (later > now + RefreshRotation ==>
                  Refresh(v, after, rows, authorizes, Ok(clientId), req, later, issue')
                  == Transition(Err(Described(InvalidGrant, DescRefreshExpired)), after))
            && (later <= now + RefreshRotation ==> Usable(v, after, req, clientId, later))
  {
  }

  /** The `refresh_token` grant handler. */
  method Handle(
    store: Store, v: Validator, clientCheck: Result<string>, req: TokenRequest, now: int, issue: Issuer)
    returns (r: Result<Response>)
    requires store.Valid()
    requires clientCheck.Ok? ==> !LeavesScopeUnsplit(v, store.refreshTokens, req, clientCheck.value, now)
    modifies store`refreshTokens
    ensures store.Valid()
    ensures var spec := Refresh(v, old(store.refreshTokens), store.scopes, store.authorizes, clientCheck, req, now, issue);
            r == spec.response && store.refreshTokens == spec.after
  {
    var clientId :- clientCheck;
    var grant :- CheckRefreshToken(store, v, req, clientId, now);
    var (username, scope) := grant;
    r := Ok(Json(200, issue(clientId, username, scope), NoCacheHeaders));
  }

  /** Narrowing `read write` to `write admin`: `admin` was never granted. */
  lemma NarrowingExample(v: Validator, now: int, scope: string)
    requires scope == Join(["write", "admin"])
    requires v.refreshToken(Some("rt")) && v.scope(Some(scope))
    ensures var tokens := map["rt" := RefreshToken("rt", "abc", "alice", now, ["read", "write"])];
            var req := TokenRequest(None, None, Some("rt"), Some(scope), None, None);
            RefreshOutcome(v, tokens, [ScopeRow("read"), ScopeRow("write"), ScopeRow("admin")], map[], req, "abc", now)
            == Err(Described(InvalidScope, DescScopeExceeds))
  {
    var tokens := map["rt" := RefreshToken("rt", "abc", "alice", now, ["read", "write"])];
    var req := TokenRequest(None, None, Some("rt"), Some(scope), None, None);
    SplitJoinRoundTrip(["write", "admin"]);
    assert "admin" !in ["read", "write"];
    ScopeBeyondGrantRefused(v, tokens, [ScopeRow("read"), ScopeRow("write"), ScopeRow("admin")], map[], req, "abc", now, "admin");
  }
}
