/**
 * The `code` response type of the authorize endpoint (RFC 6749 sections
 * 4.1.1 and 4.1.2): run the checks in order, then store one fresh
 * authorization code and redirect back with `code` and `state`.
 */
module CodeResponseType {
  import opened Php
  import opened Protocol
  import opened Model
  import opened Scopes
  import opened RedirectUris
  import opened AbstractResponseType
  import AuthorizationCodeGrant

  /** The grant type an authorize record must list for this response type. */
  const GrantType := AuthorizationCodeGrant.GrantType

  /** The code record to store and the response to send. */
  datatype Issued = Issued(code: Code, response: Response)

  /** The authorize request over a store snapshot. `random` is the 64 bytes
      `random_bytes(64)` returns and `now` the time of the request. */
  function Authorization(
    v: Validator, clients: map<string, Client>, rows: seq<ScopeRow>,
    authorizes: map<(string, string), Authorize>,
    sessionUsername: Option<string>, req: AuthorizeRequest, now: int, random: seq<byte>)
    : (r: Result<Issued>)
    requires |random| == 64
    ensures r.Ok? ==>
              && Truthy(sessionUsername) && NotBlank(req.clientId) && NotBlank(req.state)
              && ResolveRedirectUri(StoredRedirectUri(clients, req.clientId.value), req.redirectUri).Resolved?
              && r.value.code.code == Bin2Hex(random)
              && |r.value.code.code| == 128
              && (forall i :: 0 <= i < 128 ==> IsLowerHex(r.value.code.code[i]))
              && r.value.code.clientId == req.clientId.value
              && req.clientId.value in clients
              && r.value.code.username == sessionUsername.value
              && r.value.code.redirectUri
                 == ResolveRedirectUri(StoredRedirectUri(clients, req.clientId.value), req.redirectUri).uri
              && r.value.code.expires == now + CodeLifetime
              && (!Truthy(req.scope) ==> r.value.code.scope == [])
              && (Truthy(req.scope) ==> r.value.code.scope == PregSplit(req.scope.value))
              && (forall e :: e in r.value.code.scope ==> e in ScopeNames(rows))
              && r.value.response == Redirect(r.value.code.redirectUri,
                                              [("code", r.value.code.code), ("state", req.state.value)])
  {
    var username :- CheckUsername(sessionUsername);
    var clientId :- CheckClientId(v, clients, req.clientId);
    var redirectUri :- CheckRedirectUri(v, clients, req.redirectUri, clientId);
    var state :- CheckState(v, req.state, redirectUri);
    var scope :- ScopeOutcome(v, rows, authorizes, req.scope, clientId, username, redirectUri, state, GrantType);
    var code := Code(Bin2Hex(random), clientId, username, redirectUri, now + CodeLifetime,
                     if scope.Some? then scope.value else []);
    Ok(Issued(code, Redirect(redirectUri, [("code", code.code), ("state", state)])))
  }

  /** The checks run in the order username, client_id, redirect_uri, state,
      scope, and the first one that fails decides the error. */
  lemma AuthorizationStopsAtFirstFailure(
    v: Validator, clients: map<string, Client>, rows: seq<ScopeRow>,
    authorizes: map<(string, string), Authorize>,
    sessionUsername: Option<string>, req: AuthorizeRequest, now: int, random: seq<byte>)
    requires |random| == 64
    ensures var r := Authorization(v, clients, rows, authorizes, sessionUsername, req, now, random);
            var u := CheckUsername(sessionUsername);
            var c := CheckClientId(v, clients, req.clientId);
            && (u.Err? ==> r == Err(u.error))
            && (u.Ok? && c.Err? ==> r == Err(c.error))
            && (u.Ok? && c.Ok? ==>
                  var ru := CheckRedirectUri(v, clients, req.redirectUri, c.value);
                  && (ru.Err? ==> r == Err(ru.error))
                  && (ru.Ok? ==>
                        var st := CheckState(v, req.state, ru.value);
                        && (st.Err? ==> r == Err(st.error))
                        && (st.Ok? ==>
                              var sc := ScopeOutcome(v, rows, authorizes, req.scope, c.value, u.value,
                                                     ru.value, st.value, GrantType);
                              (sc.Err? ==> r == Err(sc.error)) && (sc.Ok? ==> r.Ok?))))
  {
  }

  /** End-to-end: a client without a registered URI, a supplied callback,
      state `xyz` and scope `read`, supported and authorized for this grant,
      is redirected to the callback with a 128-digit code and the state. */
  lemma AuthorizationExample(
    v: Validator, clients: map<string, Client>, rows: seq<ScopeRow>,
    authorizes: map<(string, string), Authorize>, req: AuthorizeRequest, random: seq<byte>, now: int)
    requires |random| == 64
    requires clients == map["abc" := Client("abc", "secret", "")]
    requires rows == [ScopeRow("read")]
    requires authorizes == map[("abc", "alice") := Authorize("abc", "alice", ["read"], [GrantType])]
    requires req == AuthorizeRequest(Some("abc"), Some("https://app/cb"), Some("xyz"), Some("read"))
    requires v.clientId(req.clientId) && v.redirectUri(req.redirectUri)
    requires v.state(req.state) && v.scope(req.scope)
    ensures Authorization(v, clients, rows, authorizes, Some("alice"), req, now, random)
            == Ok(Issued(Code(Bin2Hex(random), "abc", "alice", "https://app/cb", now + CodeLifetime, ["read"]),
                         Redirect("https://app/cb", [("code", Bin2Hex(random)), ("state", "xyz")])))
  {
    ExampleRequestChecks(v, clients, req);
    ExampleScopeCheck(v, rows, authorizes, req.scope);
  }

  lemma ExampleRequestChecks(v: Validator, clients: map<string, Client>, req: AuthorizeRequest)
    requires clients == map["abc" := Client("abc", "secret", "")]
    requires req == AuthorizeRequest(Some("abc"), Some("https://app/cb"), Some("xyz"), Some("read"))
    requires v.clientId(req.clientId) && v.redirectUri(req.redirectUri) && v.state(req.state)
    ensures CheckClientId(v, clients, req.clientId) == Ok("abc")
    ensures CheckRedirectUri(v, clients, req.redirectUri, "abc") == Ok("https://app/cb")
    ensures CheckState(v, req.state, "https://app/cb") == Ok("xyz")
  {
    assert StoredRedirectUri(clients, "abc") == Some("");
  }

  lemma ExampleScopeCheck(
    v: Validator, rows: seq<ScopeRow>, authorizes: map<(string, string), Authorize>, scope: Option<string>)
    requires rows == [ScopeRow("read")]
    requires authorizes == map[("abc", "alice") := Authorize("abc", "alice", ["read"], [GrantType])]
    requires scope == Some("read") && v.scope(scope)
    ensures ScopeOutcome(v, rows, authorizes, scope, "abc", "alice", "https://app/cb", "xyz", GrantType)
            == Ok(Some(["read"]))
  {
    assert PregSplit("read") == ["read"] by {
      SplitJoinRoundTrip(["read"]);
    }
    assert ScopeNames(rows) == ["read"];
    IntersectIsIdentityIff(["read"], ["read"]);
  }

  /** The authorize endpoint, storing the code with `createModel`. The store
      changes only on success: the new record is filed under its code, and
      every other code is kept. A fresh code adds exactly one key; one equal
      to a stored code replaces that record. */
  method Handle(
    store: Store, v: Validator, sessionUsername: Option<string>, req: AuthorizeRequest,
    now: int, random: seq<byte>)
    returns (r: Result<Response>)
    requires |random| == 64
    requires store.Valid()
    modifies store`codes
    ensures store.Valid()
    ensures var spec := Authorization(v, store.clients, store.scopes, store.authorizes,
                                      sessionUsername, req, now, random);
            && r == (if spec.Ok? then Ok(spec.value.response) else Err(spec.error))
            && store.codes == (if spec.Ok? then old(store.codes)[spec.value.code.code := spec.value.code]
                               else old(store.codes))
    ensures r.Ok? && Bin2Hex(random) !in old(store.codes) ==>
              store.codes.Keys == old(store.codes).Keys + {Bin2Hex(random)}
  {
    var username :- CheckUsername(sessionUsername);
    var clientId :- CheckClientId(v, store.clients, req.clientId);
    var redirectUri :- CheckRedirectUri(v, store.clients, req.redirectUri, clientId);
    var state :- CheckState(v, req.state, redirectUri);
    var scope :- CheckScope(store, v, req.scope, clientId, username, redirectUri, state, GrantType);
    var code := Code(Bin2Hex(random), clientId, username, redirectUri, now + CodeLifetime,
                     if scope.Some? then scope.value else []);
    store.codes := store.codes[code.code := code];
    r := Ok(Redirect(redirectUri, [("code", code.code), ("state", state)]));
  }
}
