/**
 * The scope reads shared by the authorize endpoint and the refresh-token
 * grant: collecting the supported scopes from the scope table, and the
 * scopes a resource owner has authorized for a client.
 */
module Scopes {
  import opened Php
  import opened Model

  /** The scope names of the table rows, in row order. */
  function ScopeNames(rows: seq<ScopeRow>): (names: seq<string>)
    ensures |names| == |rows|
    ensures forall i :: 0 <= i < |rows| ==> names[i] == rows[i].scope
  {
    if rows == [] then [] else [rows[0].scope] + ScopeNames(rows[1..])
  }

  /** The `foreach` that appends `$row->getScope()` to `$scopeSupported`. */
  method CollectSupportedScopes(rows: seq<ScopeRow>) returns (supported: seq<string>)
    ensures supported == ScopeNames(rows)
  {
    supported := [];
    for i := 0 to |rows|
      invariant |supported| == i
      invariant forall k :: 0 <= k < i ==> supported[k] == rows[k].scope
    {
      supported := supported + [rows[i].scope];
    }
  }

  /** The authorized scopes of the record for (client, user), or the empty
      list when there is no such record. */
  function AuthorizedScopes(authorizes: map<(string, string), Authorize>, clientId: string, username: string): seq<string> {
    if (clientId, username) in authorizes then authorizes[(clientId, username)].scope else []
  }

  /** A non-empty scope list is never within the authorized scopes of a
      missing record: passing the authorized-scope check implies the record
      exists. */
  lemma WithinAuthorizedImpliesRecord(
    s: seq<string>, authorizes: map<(string, string), Authorize>, clientId: string, username: string)
    requires |s| >= 1
    requires IntersectIsIdentity(s, AuthorizedScopes(authorizes, clientId, username))
    ensures (clientId, username) in authorizes
  {
    IntersectIsIdentityIff(s, AuthorizedScopes(authorizes, clientId, username));
    assert s[0] in AuthorizedScopes(authorizes, clientId, username);
  }
}
