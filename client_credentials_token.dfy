/**
 * The security token a client authenticates with at the token endpoint:
 * the provider key it was issued for, the client's id, secret and redirect
 * URI, and the state of the Symfony `AbstractToken` it extends (role
 * names, the authenticated flag and the user).
 */
module ClientCredentials {
  import opened Php

  /** Everything a token holds, as one value. */
  datatype TokenState = TokenState(
    providerKey: string,
    clientId: string,
    clientSecret: string,
    redirectUri: string,
    roleNames: seq<string>,
    authenticated: bool,
    user: Option<string>)

  /** An entry of the serialized form: one of the token's own fields, or the
      parent token's state. */
  datatype Serialized =
    | Text(text: string)
    | ParentState(roleNames: seq<string>, authenticated: bool, user: Option<string>)

  /** A reference decoder for the serialized form: exactly four fields,
      then the parent's state, all read back. It states what `Serialize`
      preserves; the source's own `__unserialize` is not modelled. */
  function Unpack(s: seq<Serialized>): (r: Option<TokenState>)
    ensures r.Some? <==> |s| == 5 && s[0].Text? && s[1].Text? && s[2].Text? && s[3].Text? && s[4].ParentState?
  {
    if |s| == 5 && s[0].Text? && s[1].Text? && s[2].Text? && s[3].Text? && s[4].ParentState? then
      Some(TokenState(s[0].text, s[1].text, s[2].text, s[3].text, s[4].roleNames, s[4].authenticated, s[4].user))
    else None
  }

  class ClientCredentialsToken {
    const providerKey: string
    var clientId: string
    var clientSecret: string
    var redirectUri: string
    var roleNames: seq<string>
    var authenticated: bool
    var user: Option<string>

    function State(): TokenState
      reads this
    {
      TokenState(providerKey, clientId, clientSecret, redirectUri, roleNames, authenticated, user)
    }

    /** A token is authenticated from the start exactly when it is given at
        least one role; no user is set yet. */
    constructor (providerKey: string, clientId: string, clientSecret: string,
                 redirectUri: string := "", roles: seq<string> := [])
      ensures State() == TokenState(providerKey, clientId, clientSecret, redirectUri, roles, |roles| > 0, None)
    {
      this.providerKey := providerKey;
      this.clientId := clientId;
      this.clientSecret := clientSecret;
      this.redirectUri := redirectUri;
      this.roleNames := roles;
      this.user := None;
      this.authenticated := |roles| > 0;
    }

    /** Every client credentials token reports the id 0. */
    function GetId(): (id: int)
      ensures id == 0
    {
      0
    }

    /** A client credentials token carries no credentials of its own. */
    function GetCredentials(): (c: string)
      ensures c == ""
    {
      ""
    }

    /** The key of the provider the token was issued for, the first entry
        of its serialized form. */
    function GetProviderKey(): (k: string)
      reads this
      ensures k == State().providerKey
      ensures Serialize()[0] == Text(k)
    {
      providerKey
    }

    function GetClientId(): string
      reads this
    {
      clientId
    }

    function GetClientSecret(): string
      reads this
    {
      clientSecret
    }

    function GetRedirectUri(): string
      reads this
    {
      redirectUri
    }

    function GetRoleNames(): seq<string>
      reads this
    {
      roleNames
    }

    /** Each setter changes its own field only and returns the token itself. */
    method SetClientId(clientId: string) returns (self: ClientCredentialsToken)
      modifies this`clientId
      ensures self == this
      ensures State() == old(State()).(clientId := clientId)
      ensures GetClientId() == clientId
    {
      this.clientId := clientId;
      self := this;
    }

    method SetClientSecret(clientSecret: string) returns (self: ClientCredentialsToken)
      modifies this`clientSecret
      ensures self == this
      ensures State() == old(State()).(clientSecret := clientSecret)
      ensures GetClientSecret() == clientSecret
    {
      this.clientSecret := clientSecret;
      self := this;
    }

    method SetRedirectUri(redirectUri: string) returns (self: ClientCredentialsToken)
      modifies this`redirectUri
      ensures self == this
      ensures State() == old(State()).(redirectUri := redirectUri)
      ensures GetRedirectUri() == redirectUri
    {
      this.redirectUri := redirectUri;
      self := this;
    }

    /** The parent's `setUser`, on a token whose user is not yet set. */
    method SetUser(user: string)
      requires this.user.None?
      modifies this`user
      ensures State() == old(State()).(user := Some(user))
    {
      this.user := Some(user);
    }

    /** `__serialize`: provider key, client id, client secret, redirect URI,
        then the parent's state, in that order; reading it back by position
        gives the whole token state. */
    function Serialize(): (r: seq<Serialized>)
      reads this
      ensures |r| == 5
      ensures r[..4] == [Text(providerKey), Text(clientId), Text(clientSecret), Text(redirectUri)]
      ensures Unpack(r) == Some(State())
    {
      [Text(providerKey), Text(clientId), Text(clientSecret), Text(redirectUri),
       ParentState(roleNames, authenticated, user)]
    }
  }

  /** Two tokens serialize alike only when they are in the same state. */
  lemma SerializeInjective(a: ClientCredentialsToken, b: ClientCredentialsToken)
    requires a.Serialize() == b.Serialize()
    ensures a.State() == b.State()
  {
    assert Some(a.State()) == Unpack(a.Serialize()) == Unpack(b.Serialize()) == Some(b.State());
  }
}
