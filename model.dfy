/**
 * The entity store the handlers read and write, the requests they receive,
 * and the collaborators they call without seeing: the Symfony Validator
 * constraints and the token issuer.
 */
module Model {
  import opened Php
  import opened Protocol

  /** A registered client. An empty `redirectUri` stands for none registered. */
  datatype Client = Client(clientId: string, clientSecret: string, redirectUri: string)

  /** An authorization code, stored until it is redeemed. */
  datatype Code = Code(
    code: string,
    clientId: string,
    username: string,
    redirectUri: string,
    expires: int,
    scope: seq<string>)

  /** A refresh token; an empty `scope` stands for none granted. */
  datatype RefreshToken = RefreshToken(
    refreshToken: string,
    clientId: string,
    username: string,
    expires: int,
    scope: seq<string>)

  /** A row of the scope table. */
  datatype ScopeRow = ScopeRow(scope: string)

  /** What a resource owner has approved for a client. */
  datatype Authorize = Authorize(
    clientId: string,
    username: string,
    scope: seq<string>,
    grantType: seq<string>)

  /** The format constraints of the Symfony Validator (ClientId, RedirectUri,
      State, Scope, Code, RefreshToken, Username, Password), left
      uninterpreted: each says whether a parameter value is well formed. */
  datatype Validator = Validator(
    clientId: Option<string> -> bool,
    redirectUri: Option<string> -> bool,
    state: Option<string> -> bool,
    scope: Option<string> -> bool,
    code: Option<string> -> bool,
    refreshToken: Option<string> -> bool,
    username: Option<string> -> bool,
    password: Option<string> -> bool)

  /** The query of an authorize request. */
  datatype AuthorizeRequest = AuthorizeRequest(
    clientId: Option<string>,
    redirectUri: Option<string>,
    state: Option<string>,
    scope: Option<string>)

  /** The POST body of a token request. */
  datatype TokenRequest = TokenRequest(
    code: Option<string>,
    redirectUri: Option<string>,
    refreshToken: Option<string>,
    scope: Option<string>,
    username: Option<string>,
    password: Option<string>)

  /** The token issuer: (client id, username, scope or null) to the token
      parameters of the response body. */
  type Issuer = (string, string, Option<seq<string>>) -> PhpArray

  /** Lifetime of an authorization code, `+10 minutes`, in seconds. */
  const CodeLifetime := 600

  /** Window a used refresh token stays valid, `+ 5 minutes`, in seconds. */
  const RefreshRotation := 300

  /** The response and the part of the store a handler rewrites. */
  datatype Transition<S> = Transition(response: Result<Response>, after: S)

  /** Each record is filed under the key the model managers look it up by:
      clients by client id, codes by code, refresh tokens by token, and
      authorize records by client id and username. */
  ghost predicate Keyed(
    clients: map<string, Client>, codes: map<string, Code>,
    refreshTokens: map<string, RefreshToken>, authorizes: map<(string, string), Authorize>)
  {
    && (forall k :: k in clients ==> clients[k].clientId == k)
    && (forall k :: k in codes ==> codes[k].code == k)
    && (forall k :: k in refreshTokens ==> refreshTokens[k].refreshToken == k)
    && (forall c, u :: (c, u) in authorizes ==> authorizes[(c, u)].clientId == c && authorizes[(c, u)].username == u)
  }

  /** The entity store, one map per model manager: clients by client id,
      codes by code, refresh tokens by token, the scope table as
      `readModelAll` returns it, and authorize records by client and user. */
  class Store {
    var clients: map<string, Client>
    var codes: map<string, Code>
    var refreshTokens: map<string, RefreshToken>
    var scopes: seq<ScopeRow>
    var authorizes: map<(string, string), Authorize>

    /** Every record is filed under its own key. */
    ghost predicate Valid()
      reads this
    {
      Keyed(clients, codes, refreshTokens, authorizes)
    }

    constructor (
      clients: map<string, Client>,
      codes: map<string, Code>,
      refreshTokens: map<string, RefreshToken>,
      scopes: seq<ScopeRow>,
      authorizes: map<(string, string), Authorize>)
      requires Keyed(clients, codes, refreshTokens, authorizes)
      ensures Valid()
      ensures this.clients == clients && this.codes == codes
      ensures this.refreshTokens == refreshTokens && this.scopes == scopes
      ensures this.authorizes == authorizes
    {
      this.clients := clients;
      this.codes := codes;
      this.refreshTokens := refreshTokens;
      this.scopes := scopes;
      this.authorizes := authorizes;
    }
  }
}
