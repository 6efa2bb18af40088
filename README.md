# OAuth2 authorization server core, modelled in Dafny

This project models the decision core of the AuthBucket OAuth2 server
(RFC 6749) and proves what that core does. Each request runs as one
sequential validation pipeline over a small entity store. The pipeline
either issues a code or a token, or raises a typed OAuth2 error. The
project models these parts:

- the authorize endpoint with the `code` response type, and its checks on username, `client_id`, `redirect_uri`, `state` and `scope`;
- the `authorization_code`, `refresh_token` and `password` grants of the token endpoint;
- the grant-type handler registry;
- the client credentials token and the provider that authenticates clients at the token endpoint;
- the exception listener, which turns a raised OAuth2 exception into a redirect or a JSON error body.

The store is a `Store` class whose maps the handler methods reassign:
clients, codes, refresh tokens, the scope table and authorize records.
Each handler that changes the store comes in two parts:

- a method that runs the source's statements, so it deletes the code or rewrites the refresh token's expiry in place and fills the supported scopes with a loop;
- a pure function over a store snapshot, which is the method's specification (`Authorization`, `Redemption`, `Refresh`).

Each method's `ensures` equates its result and new store with that
function. The lemmas then state the protocol properties about the
function: codes are single-use, expiry is strict, narrowing never widens
a grant, checks run in a fixed order, and failures do not touch the
store.

Shared modules:

- `Php`: the PHP runtime behaviour the core relies on:
  - truthiness, where `"0"` is falsy, and Symfony's `NotBlank`;
  - `strcasecmp` over `substr`;
  - `preg_split('/\s+/')`;
  - `array_intersect` with its key preservation and the `!==` identity test;
  - `isset`/`unset` on string-keyed arrays;
  - `bin2hex`.
- `Protocol`: error kinds, error payloads, the `Result` type and responses.
- `Model`: entities, requests, the store and the collaborators the core calls without seeing.

Time is an integer `now` in seconds. The model takes three things as
parameters:

- the random bytes of a new code;
- the token issuer;
- the grant handlers' inherited client and scope checks.

## Model

| member | source | states |
|---|---|---|
| Php.TruthyVersusNotBlank | src/OAuth2/ResponseType/AbstractResponseTypeHandler.php:180-189 | a truthy value is never blank; the two tests differ on exactly `"0"`, which is not blank yet falsy (`empty`, `!$x`, `?:`); only null and `""` are blank, and whitespace is truthy |
| Php.PregSplit | src/OAuth2/ResponseType/AbstractResponseTypeHandler.php:193 | `preg_split('/\s+/')` yields at least one piece, and no piece contains whitespace |
| Php.StrCaseCmpIsPrefixTest | src/OAuth2/ResponseType/AbstractResponseTypeHandler.php:145 | `strcasecmp(substr(s, 0, strlen(p)), p) === 0` holds iff `p` is an ASCII case-insensitive prefix of `s`; it always fails when `s` is shorter than `p` |
| Php.SplitJoinRoundTrip | src/OAuth2/ResponseType/AbstractResponseTypeHandler.php:193 | `preg_split('/\s+/')` of a space-joined list of non-empty, space-free scope tokens gives the list back |
| Php.IntersectIsIdentityIff | src/OAuth2/ResponseType/AbstractResponseTypeHandler.php:204 | `array_intersect($s, $x) !== $s` is false exactly when every element of `s` is in `x`, with keys compared as PHP does |
| Php.Get | src/OAuth2/Symfony/Component/EventDispatcher/ExceptionListener.php:85-86 | `isset($a[$k])` holds iff some entry has key `k`, and then the value read is stored under `k` |
| Php.GetUnique | src/OAuth2/Symfony/Component/EventDispatcher/ExceptionListener.php:85-86 | in an array whose keys are unique, as every PHP array's are, reading key `k` gives `x` iff the entry `(k, x)` is stored |
| Php.Unset | src/OAuth2/Symfony/Component/EventDispatcher/ExceptionListener.php:87 | after `unset`, key `k` is absent, every other key reads as before, and the entries are exactly the old ones without key `k` |
| Php.Bin2Hex | src/OAuth2/ResponseType/CodeResponseTypeHandler.php:54 | `bin2hex` yields two lower-case hex digits per byte |
| Php.HexRoundTrip | src/OAuth2/ResponseType/CodeResponseTypeHandler.php:54 | decoding the hex text of a byte string gives the bytes back |
| Php.Bin2HexInjective | src/OAuth2/ResponseType/CodeResponseTypeHandler.php:54 | distinct random byte strings give distinct codes |
| Scopes.CollectSupportedScopes | src/OAuth2/ResponseType/AbstractResponseTypeHandler.php:196-203 | the `foreach` loop collects exactly the scope names of the table rows, in row order |
| Scopes.WithinAuthorizedImpliesRecord | src/OAuth2/ResponseType/AbstractResponseTypeHandler.php:209-223 | a non-empty scope that passes the authorized-scope check implies the authorize record exists, so line 223 never dereferences null |
| RedirectUris.ResolveRedirectUri | src/OAuth2/ResponseType/AbstractResponseTypeHandler.php:127-151 | the URI is missing iff neither the stored nor the supplied URI is truthy; with both present, it resolves iff the stored URI is a case-insensitive prefix of the supplied one; a shorter supplied URI never matches; the supplied URI wins when truthy, else the stored one |
| RedirectUris.LongerUriAccepted | src/OAuth2/ResponseType/AbstractResponseTypeHandler.php:143-147 | a supplied URI extending the registered one is accepted as supplied |
| RedirectUris.UpperCaseUriAccepted | src/OAuth2/ResponseType/AbstractResponseTypeHandler.php:145 | the prefix comparison ignores ASCII case |
| RedirectUris.ForeignUriRefused | src/OAuth2/ResponseType/AbstractResponseTypeHandler.php:143-147 | a URI on another host is a mismatch |
| RedirectUris.FalsyUriExamples | src/OAuth2/ResponseType/AbstractResponseTypeHandler.php:138-151 | a supplied `"0"` counts as absent and defers to the registered URI, or is missing when there is none |
| AbstractResponseType.CheckUsername | src/OAuth2/ResponseType/AbstractResponseTypeHandler.php:58-66 | succeeds iff the session username is truthy, and returns it; otherwise `ServerError` |
| AbstractResponseType.CheckClientId | src/OAuth2/ResponseType/AbstractResponseTypeHandler.php:78-100 | a blank or malformed `client_id` is `InvalidRequest`; a well-formed unknown one is `UnauthorizedClient`; success iff well formed and registered, returning the input |
| AbstractResponseType.CheckRedirectUri | src/OAuth2/ResponseType/AbstractResponseTypeHandler.php:112-152 | every failure is `InvalidRequest`; a malformed URI is "invalid parameter value."; neither URI present is "missing"; a prefix mismatch is "invalid parameter value"; success iff well formed and the redirect-URI rule resolves, so a lone stored or a lone supplied URI is accepted; the result is the resolved, truthy URI |
| AbstractResponseType.CheckState | src/OAuth2/ResponseType/AbstractResponseTypeHandler.php:154-169 | success iff `state` is non-blank and well formed, returning it; the error carries the resolved `redirect_uri` |
| AbstractResponseType.ScopeOutcome | src/OAuth2/ResponseType/AbstractResponseTypeHandler.php:171-228 | an empty scope gives null with no further check; an accepted scope is the split scope, every element supported and authorized, with an authorize record listing the grant type |
| AbstractResponseType.ScopeOutcomeErrors | src/OAuth2/ResponseType/AbstractResponseTypeHandler.php:184-225 | a malformed scope is `InvalidRequest`; an unsupported element is `InvalidScope` "unknown"; a supported but unauthorized element is `InvalidScope` "invalid"; a scope both supported and authorized implies the authorize record exists, and is accepted as the split scope iff the record lists the grant type, else `InvalidGrant` with `state` and no `redirect_uri` |
| AbstractResponseType.CheckScope | src/OAuth2/ResponseType/AbstractResponseTypeHandler.php:171-228 | the statement-level check, with the supported scopes collected by the loop, returns exactly `ScopeOutcome` over the store |
| CodeResponseType.Authorization | src/OAuth2/ResponseType/CodeResponseTypeHandler.php:27-70 | a successful authorization stores a code with: `bin2hex` of the 64 random bytes (128 lower-case hex digits); the registered client; the session user; the resolved redirect URI; expiry now + 10 minutes; the split scope, or `[]` when omitted. It redirects to that URI with exactly `code` and `state` |
| CodeResponseType.AuthorizationStopsAtFirstFailure | src/OAuth2/ResponseType/CodeResponseTypeHandler.php:30-48 | the checks run in the order username, client_id, redirect_uri, state, scope, and the first failure is the result |
| CodeResponseType.AuthorizationExample | src/OAuth2/ResponseType/CodeResponseTypeHandler.php:27-70 | end-to-end success for a client with no registered URI, a supplied callback, state and a supported, authorized scope |
| CodeResponseType.Handle | src/OAuth2/ResponseType/CodeResponseTypeHandler.php:27-70 | the endpoint returns the specification's response. On success the new code record is filed under its code and every other code is kept, so a fresh code adds exactly one key; the code store is unchanged on any failure |
| AuthorizationCodeGrant.CheckRedirectUri | src/OAuth2/GrantType/AuthorizationCodeGrantTypeHandler.php:106-145 | a malformed URI is `InvalidRequest` "invalid"; neither URI present is `InvalidRequest` "missing"; a prefix mismatch is `InvalidGrant` "does not match"; every other error is `InvalidRequest`; success iff well formed and the redirect-URI rule resolves, so a lone stored or a lone supplied URI is accepted, returning the supplied URI when truthy, else the stored one |
| AuthorizationCodeGrant.CodeOutcome | src/OAuth2/GrantType/AuthorizationCodeGrantTypeHandler.php:65-94 | blank or malformed is `InvalidRequest`; unknown or another client's code is `InvalidGrant` "invalid"; expiry before now is `InvalidGrant` "expired"; success iff found, same client and `now <= expires` |
| AuthorizationCodeGrant.CheckCode | src/OAuth2/GrantType/AuthorizationCodeGrantTypeHandler.php:65-94 | returns the code's username and scope and deletes exactly that code on success; leaves the store unchanged on failure |
| AuthorizationCodeGrant.Redemption | src/OAuth2/GrantType/AuthorizationCodeGrantTypeHandler.php:28-52 | the error of the first failing step (client check, redirect URI, code) is the response, unchanged, and the code store is kept; success iff all three pass. On success the code was the client's and unexpired and is removed, and the response is the issuer's parameters for (client, code user, code scope) with no-store/no-cache headers |
| AuthorizationCodeGrant.CodeIsSingleUse | src/OAuth2/GrantType/AuthorizationCodeGrantTypeHandler.php:90-93 | after a successful redemption any request presenting the same code fails; the same request fails with `InvalidGrant` "invalid" |
| AuthorizationCodeGrant.CodeExpiry | src/OAuth2/GrantType/AuthorizationCodeGrantTypeHandler.php:84-91 | `expires < now` is refused as expired and the code is kept; `expires >= now`, equality included, is redeemed and deleted |
| AuthorizationCodeGrant.RedirectFailureKeepsCode | src/OAuth2/GrantType/AuthorizationCodeGrantTypeHandler.php:31-37 | the redirect check runs before the code check, so its error is the result and the code store is unchanged |
| AuthorizationCodeGrant.RedemptionIgnoresIssuedRedirectUri | src/OAuth2/GrantType/AuthorizationCodeGrantTypeHandler.php:34-37 | the redirect URI a code was issued for has no influence on redeeming it |
| AuthorizationCodeGrant.Handle | src/OAuth2/GrantType/AuthorizationCodeGrantTypeHandler.php:28-52 | the handler's response and new code store are those of `Redemption` |
| RefreshTokenGrant.GrantedScope | src/OAuth2/GrantType/RefreshTokenGrantTypeHandler.php:102-105 | the granted scope is null exactly when the stored scope list is empty, and otherwise that list |
| RefreshTokenGrant.Narrow | src/OAuth2/GrantType/RefreshTokenGrantTypeHandler.php:107-118 | a supplied scope is accepted iff every split element is granted, and is then the split scope, else `InvalidScope` "exceeds"; an omitted scope inherits the granted one |
| RefreshTokenGrant.RefreshOutcome | src/OAuth2/GrantType/RefreshTokenGrantTypeHandler.php:64-153 | on success the token passed its checks, the username is the stored one, and the effective scope is within the granted scope, the supported scopes and the authorized scopes. It is the split request scope when one was supplied, else the granted scope |
| RefreshTokenGrant.RefreshOutcomeErrors | src/OAuth2/GrantType/RefreshTokenGrantTypeHandler.php:68-96 | a blank or malformed token, or a malformed scope, is `InvalidRequest`; an unknown or another client's token is `InvalidGrant` "issued to another client"; `expires < now` is `InvalidGrant` "expired" |
| RefreshTokenGrant.ScopeBeyondGrantRefused | src/OAuth2/GrantType/RefreshTokenGrantTypeHandler.php:108-114 | one requested element outside the granted scope is `InvalidScope` "exceeds", whatever the scope table and authorize records hold |
| RefreshTokenGrant.EffectiveScopeChecks | src/OAuth2/GrantType/RefreshTokenGrantTypeHandler.php:120-147 | a narrowed scope with an unsupported element is "unknown"; one that is supported but not authorized is "exceeds"; one that is both supported and authorized is returned |
| RefreshTokenGrant.NoScopeSkipsStores | src/OAuth2/GrantType/RefreshTokenGrantTypeHandler.php:116-120 | with no scope supplied and none granted, the result is a null scope whatever the scope table and authorize records hold |
| RefreshTokenGrant.Rotate | src/OAuth2/GrantType/RefreshTokenGrantTypeHandler.php:149-150 | the rotated store has the same tokens; the used token's expiry is now + 5 minutes with nothing else in it changed; every other token is unchanged |
| RefreshTokenGrant.CheckRefreshToken | src/OAuth2/GrantType/RefreshTokenGrantTypeHandler.php:64-153 | the statement-level check returns exactly `RefreshOutcome`, rewrites the expiry in place on success, and leaves the store unchanged on failure |
| RefreshTokenGrant.Refresh | src/OAuth2/GrantType/RefreshTokenGrantTypeHandler.php:29-50 | the error of the client check, or else of `RefreshOutcome`, is the response, unchanged, and the token store is kept; success iff both pass. On success the token was usable, the store is rotated, and the response is the issuer's parameters for (client, stored user, effective scope) with no-store/no-cache headers |
| RefreshTokenGrant.RefreshExpiry | src/OAuth2/GrantType/RefreshTokenGrantTypeHandler.php:92-96 | an expired token is refused and the store is unchanged; a token expiring exactly now is accepted |
| RefreshTokenGrant.RotationWindow | src/OAuth2/GrantType/RefreshTokenGrantTypeHandler.php:94-150 | after a refresh at `now`, the same token is usable up to now + 5 minutes and refused as expired after that |
| RefreshTokenGrant.Handle | src/OAuth2/GrantType/RefreshTokenGrantTypeHandler.php:29-50 | the handler's response and new token store are those of `Refresh` |
| RefreshTokenGrant.NarrowingExample | src/OAuth2/GrantType/RefreshTokenGrantTypeHandler.php:108-114 | a token granted `read write` refuses a request for `write admin` as "exceeds" |
| PasswordGrant.CheckUsername | src/OAuth2/GrantType/PasswordGrantTypeHandler.php:71-108 | a bad username is `InvalidRequest`; then a bad password is `InvalidRequest`; rejected credentials are `InvalidGrant` with the fixed description; success iff all three pass, returning the supplied username |
| PasswordGrant.UsernameFailureIgnoresPassword | src/OAuth2/GrantType/PasswordGrantTypeHandler.php:74-81 | a malformed username decides the outcome whatever the password |
| PasswordGrant.CredentialFailuresIndistinguishable | src/OAuth2/GrantType/PasswordGrantTypeHandler.php:94-105 | any two rejected logins give the same error |
| PasswordGrant.Handle | src/OAuth2/GrantType/PasswordGrantTypeHandler.php:35-59 | the error of the first failing step (client check, credentials, scope check) is the result, unchanged. On success the issuer gets (client, supplied username, checked scope) and the response carries no-store/no-cache headers |
| PasswordGrant.ScopeCheckSkippedOnCredentialFailure | src/OAuth2/GrantType/PasswordGrantTypeHandler.php:41-44 | when the credentials fail, the outcome is an error and does not depend on the scope check or the issuer |
| PasswordGrant.LoginIssuesForSuppliedUser | src/OAuth2/GrantType/PasswordGrantTypeHandler.php:35-59 | a correct login with an accepted scope issues a token for exactly the supplied username |
| GrantTypeFactory.NewFactory | src/OAuth2/GrantType/GrantTypeHandlerFactory.php:46-65 | construction succeeds iff every listed class exists and implements the handler interface. It fails with `UnsupportedGrantType` otherwise, and `getGrantTypeHandlers` returns the given array unchanged |
| GrantTypeFactory.SelectedType | src/OAuth2/GrantType/GrantTypeHandlerFactory.php:69 | a truthy type is used as given; a falsy one selects the first registered key, which is then registered under its own class, and nothing when the registry is empty |
| GrantTypeFactory.GetGrantTypeHandler | src/OAuth2/GrantType/GrantTypeHandlerFactory.php:67-85 | a truthy type yields exactly its mapped class when registered and defined; a falsy type selects the first key; an empty registry with no type, or an unregistered type, is `UnsupportedGrantType` |
| GrantTypeFactory.RegisteredTypeResolves | src/OAuth2/GrantType/GrantTypeHandlerFactory.php:71-84 | in a validly constructed factory, every registered type yields its own class and an unregistered type is refused |
| GrantTypeFactory.FalsyTypeSelectsFirst | src/OAuth2/GrantType/GrantTypeHandlerFactory.php:69 | the types `"0"` and null select the first registered handler, even when `"0"` is itself registered |
| ClientCredentials.Unpack | src/OAuth2/Symfony/Component/Security/Core/Authentication/Token/ClientCredentialsToken.php:97-106 | a reference decoder, not the source's own reading: it accepts exactly four fields followed by the parent state, and reads all of them back |
| ClientCredentials.ClientCredentialsToken.constructor | src/OAuth2/Symfony/Component/Security/Core/Authentication/Token/ClientCredentialsToken.php:28-44 | the fields are as given, with redirect URI `''` and no roles by default; the token is authenticated iff the role list is non-empty |
| ClientCredentials.ClientCredentialsToken.GetId | src/OAuth2/Symfony/Component/Security/Core/Authentication/Token/ClientCredentialsToken.php:46-49 | every token reports the id 0 |
| ClientCredentials.ClientCredentialsToken.GetProviderKey | src/OAuth2/Symfony/Component/Security/Core/Authentication/Token/ClientCredentialsToken.php:87-90 | the provider key the token was created with, which is also the first entry of its serialized form |
| ClientCredentials.ClientCredentialsToken.GetCredentials | src/OAuth2/Symfony/Component/Security/Core/Authentication/Token/ClientCredentialsToken.php:92-95 | a client credentials token carries no credentials: always `''` |
| ClientCredentials.ClientCredentialsToken.SetClientId | src/OAuth2/Symfony/Component/Security/Core/Authentication/Token/ClientCredentialsToken.php:51-61 | only the client id changes, the getter returns the new value, and the token itself is returned |
| ClientCredentials.ClientCredentialsToken.SetClientSecret | src/OAuth2/Symfony/Component/Security/Core/Authentication/Token/ClientCredentialsToken.php:63-73 | only the client secret changes, the getter returns the new value, and the token itself is returned |
| ClientCredentials.ClientCredentialsToken.SetRedirectUri | src/OAuth2/Symfony/Component/Security/Core/Authentication/Token/ClientCredentialsToken.php:75-85 | only the redirect URI changes, the getter returns the new value, and the token itself is returned |
| ClientCredentials.ClientCredentialsToken.SetUser | src/OAuth2/Symfony/Component/Security/Core/Authentication/Provider/TokenProvider.php:59 | setting the user of a fresh token changes only the user |
| ClientCredentials.ClientCredentialsToken.Serialize | src/OAuth2/Symfony/Component/Security/Core/Authentication/Token/ClientCredentialsToken.php:97-106 | five entries: provider key, client id, client secret, redirect URI, then the parent's state. The reference decoder `Unpack` reads the whole state back, so nothing is lost in the serialized form |
| ClientCredentials.SerializeInjective | src/OAuth2/Symfony/Component/Security/Core/Authentication/Token/ClientCredentialsToken.php:97-106 | tokens with equal serialized forms are in the same state |
| Provider.TokenProvider.Authenticate | src/OAuth2/Symfony/Component/Security/Core/Authentication/Provider/TokenProvider.php:38-67 | an unsupported token (another kind, or another provider key) gives nothing. Otherwise success iff the client exists and the secret is identical, else `InvalidClient`. The new token holds the stored client's fields, the input's roles and the client id as user |
| Provider.SupportedByOneKey | src/OAuth2/Symfony/Component/Security/Core/Authentication/Provider/TokenProvider.php:64-67 | a token of another kind is never supported; a client credentials token is supported iff its provider key is the provider's; two providers with different keys never both support a token |
| EventDispatcher.HandleException | src/OAuth2/Symfony/Component/EventDispatcher/ExceptionListener.php:83-100 | a redirect iff the message has `redirect_uri`: to that URI, with the rest of the message as query. Otherwise JSON with the whole message as body, the exception code as status and no-store/no-cache headers |
| EventDispatcher.FirstOAuth | src/OAuth2/Symfony/Component/EventDispatcher/ExceptionListener.php:43-47 | the position found holds an OAuth2 exception and every earlier link is some other throwable; none is found iff the chain holds no OAuth2 exception |
| EventDispatcher.OnKernelException | src/OAuth2/Symfony/Component/EventDispatcher/ExceptionListener.php:40-48 | the first OAuth2 exception along the chain sets the response; with none, the event is left as it was |
| EventDispatcher.ScopeErrorRedirects | src/OAuth2/ResponseType/AbstractResponseTypeHandler.php:205 | an authorize-endpoint scope error is reported by redirect to the client's URI with `state` and `error_description` |
| EventDispatcher.DescribedErrorIsJson | src/OAuth2/Symfony/Component/EventDispatcher/ExceptionListener.php:91-98 | an error carrying only a description is answered as uncached JSON under its code |

## Behaviours worth knowing

These follow from the code, and a reader may expect otherwise.

- Expiry is strict. The code refuses a code or refresh token only when `expires < now`, so a token whose expiry is exactly now is still accepted, although one might read an expiry instant as the first invalid one.
- Rotation sets rather than extends. A used refresh token's expiry is set to now + 5 minutes, as `new \DateTime('+ 5 minutes')` does. It is not advanced by five minutes from its old value.
- Redemption does not bind the redirect URI. The redirect URI presented at redemption is checked against the client's registered URI only. It is never compared with the URI the code was issued for (`RedemptionIgnoresIssuedRedirectUri`).

## Left out

- HTTP objects are out: `Request`, the query encoding of `Request::create(...)->getUri()`, and the response classes. A response is `Redirect(uri, query)` or `Json(status, body, headers)`.
- The Symfony Validator constraints (ClientId, RedirectUri, State, Scope, Code, RefreshToken, Username, Password) are defined outside the core. They are uninterpreted predicates in `Validator`; `NotBlank` is modelled.
- Credential verification is an abstract `credentialsOk(username, password)`. `DaoAuthenticationProvider`, the user checker, password encoders and their account-status exceptions are foreign.
- The grant handlers' inherited `checkClientId` and `checkScope` live in `AbstractGrantTypeHandler`, which is not part of this model. Their outcomes are parameters: `clientCheck`, and `scopeCheck` for the password grant.
- `random_bytes(64)` is a 64-byte parameter, `DateTime` is an integer `now` in seconds, and the token issuer is a function parameter.
- The token issuer's own writes are not modelled. It creates the access token and, with it, a new refresh token in the stores; the code and token stores after `Redemption` and `Refresh` (`codes - {code}`, `Rotate(tokens, ...)`) account only for the handler's own writes.
- Reflection, `class_exists` and `new $class` in the factory are the predicates of `ClassTable`. A lookup yields the class name rather than an instance. The factory's other collaborators are not modelled.
- The exception classes are not part of this model: their HTTP codes, the `error` key they add, and `serialize`/`unserialize` of their messages. The listener takes the decoded message array and the code as given, and errors carry their payload as a structured array.
- The listener's logging, log-level choice and subscriber priority are out.
- `ClientCredentialsToken::__unserialize` is not modelled. The runtime hands it the array `__serialize` returned, and it calls `unserialize()` on that array, which fails (a `TypeError` on PHP 8, a `null` result on PHP 7), so the source never reads a serialized token back. `Unpack` is only a reference decoder showing that `Serialize` loses nothing.
- `AbstractToken` is not part of this model. Only its role names, authenticated flag and user are modelled. `SetUser` applies to a token whose user is not yet set, the one use in the core, so the parent's re-authentication on a user change is not modelled.
- RefreshTokenGrant.RefreshOutcome: a scope supplied for a token with no granted scope reaches `array_intersect` as an unsplit string, and that outcome depends on the PHP version. The case is excluded by the precondition `!LeavesScopeUnsplit`, and `Refresh`, `CheckRefreshToken` and `Handle` carry the same precondition.
- The rotated expiry is an in-place update of the stored record. Whether the store persists it is not modelled.
- Lookup-then-delete and lookup-then-rotate across concurrent requests are out; the model is sequential.
- PHP strings are modelled as sequences of characters, with byte-wise ASCII case folding. A client's null redirect URI and a refresh token's null scope are the empty string and the empty list. The redirect-URI checks and the refresh-token scope test treat them alike, since both are falsy; but `TokenProvider::authenticate` (TokenProvider.php:52-56) copies the client's redirect URI into the new token without a test, so a null URI stays null there, where the model's `Authenticate` puts `""`; a code's scope is always a list, as `(array) $scope` makes it.
- An authorize record's scope and grant types are always lists. A null one would make `array_intersect` (AbstractResponseTypeHandler.php:219, RefreshTokenGrantTypeHandler.php:144) or `in_array` (line 223) raise a `TypeError` on PHP 8, where an empty list gives `InvalidScope` or `InvalidGrant`; that error path is not modelled.
- CodeResponseType.Handle: a new code equal to one already stored replaces that record, as a map update does. What `createModel` does on a duplicate code depends on the model manager, which is not part of this model; with 64 random bytes a collision is not expected.
- `PhpArray` is a sequence of pairs and admits a repeated key, which a PHP array cannot hold. `UniqueKeys` names the arrays PHP can build; the factory's registry and the exception messages are not required to satisfy it, and on a repeated key `Get` reads the first entry.
- `getId`, `getCredentials` and the getters are plain functions. They always return 0, `''` and the field, and the provider key is a `const`, so it never changes after construction.
