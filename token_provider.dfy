/**
 * Client authentication at the token endpoint: a client credentials token
 * for this provider is checked against the stored client, and an
 * authenticated token is built from the stored record.
 */
module Provider {
  import opened Php
  import opened Protocol
  import opened Model
  import opened ClientCredentials

  /** A security token handed to the provider: a client credentials token,
      or a token of any other kind. */
  datatype AnyToken = ClientToken(token: ClientCredentialsToken) | OtherToken

  class TokenProvider {
    const providerKey: string

    constructor (providerKey: string)
      ensures this.providerKey == providerKey
    {
      this.providerKey := providerKey;
    }

    /** Only client credentials tokens issued for this provider's key. */
    predicate Supports(token: AnyToken) {
      token.ClientToken? && token.token.providerKey == providerKey
    }

    /** `authenticate` over the client store: nothing for a token it does
        not support; `InvalidClient` for an unknown client or a secret that
        is not identical; otherwise a new token carrying the stored client's
        fields, the presented token's roles, and the client id as its user. */
    method Authenticate(token: AnyToken, clients: map<string, Client>)
      returns (r: Result<Option<ClientCredentialsToken>>)
      ensures !Supports(token) ==> r == Ok(None)
      ensures Supports(token) ==>
                (r.Ok? <==> token.token.clientId in clients
                            && clients[token.token.clientId].clientSecret == token.token.clientSecret)
      ensures r.Err? ==> r.error == Described(InvalidClient, DescClientAuthFailed)
      ensures Supports(token) && r.Ok? ==>
                var c := clients[token.token.clientId];
                && r.value.Some? && fresh(r.value.value)
                && r.value.value.State()
                   == TokenState(providerKey, c.clientId, c.clientSecret, c.redirectUri,
                                 token.token.roleNames, |token.token.roleNames| > 0, Some(c.clientId))
    {
      if !Supports(token) {
        return Ok(None);
      }
      var presented := token.token;
      if presented.clientId !in clients || clients[presented.clientId].clientSecret != presented.clientSecret {
        return Err(Described(InvalidClient, DescClientAuthFailed));
      }
      var client := clients[presented.clientId];
      var authenticated := new ClientCredentialsToken(providerKey, client.clientId, client.clientSecret,
                                                      client.redirectUri, presented.GetRoleNames());
      authenticated.SetUser(client.clientId);
      r := Ok(Some(authenticated));
    }
  }

  /** Support is decided by the token's kind and provider key alone: a
      token of another kind is never supported, and two providers with
      different keys never both support the same token. */
  lemma SupportedByOneKey(p: TokenProvider, q: TokenProvider, token: AnyToken)
    ensures token.OtherToken? ==> !p.Supports(token)
    ensures token.ClientToken? ==> (p.Supports(token) <==> token.token.GetProviderKey() == p.providerKey)
    ensures p.providerKey != q.providerKey ==> !(p.Supports(token) && q.Supports(token))
  {
  }
}
