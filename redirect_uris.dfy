/**
 * The redirect-URI rule shared by the authorize endpoint and the
 * authorization-code grant: reconcile the client's registered URI with the
 * one in the request. The two callers differ only in the errors they raise.
 */
module RedirectUris {
  import opened Php
  import opened Model

  datatype RedirectOutcome =
    | Missing             // neither a registered nor a supplied URI
    | Mismatch            // both, and the supplied one does not start with the registered one
    | Resolved(uri: string)

  /** The registered redirect URI of the client, null when there is no such client. */
  function StoredRedirectUri(clients: map<string, Client>, clientId: string): Option<string> {
    if clientId in clients then Some(clients[clientId].redirectUri) else None
  }

  /** At least one URI must be present (a falsy value, "0" included, counts
      as absent); when both are, the registered one must be an ASCII
      case-insensitive prefix of the supplied one; the supplied URI wins. */
  function ResolveRedirectUri(stored: Option<string>, supplied: Option<string>): (r: RedirectOutcome)
    ensures r == Missing <==> !Truthy(stored) && !Truthy(supplied)
    ensures Truthy(stored) && Truthy(supplied) ==>
              (r.Resolved? <==> HasPrefixIgnoringCase(stored.value, supplied.value))
    ensures Truthy(stored) && Truthy(supplied) && |supplied.value| < |stored.value| ==> r == Mismatch
    ensures r == Mismatch ==> Truthy(stored) && Truthy(supplied)
    ensures r.Resolved? ==> r.uri == (if Truthy(supplied) then supplied.value else stored.value)
    ensures r.Resolved? ==> Truthy(Some(r.uri))
  {
    StrCaseCmpIsPrefixTest(if stored.Some? then stored.value else "", if supplied.Some? then supplied.value else "");
    if !Truthy(stored) && !Truthy(supplied) then Missing
    else if Truthy(stored) && Truthy(supplied)
         && !StrCaseEq(Substr(supplied.value, |stored.value|), stored.value) then Mismatch
    else Resolved(if Truthy(supplied) then supplied.value else stored.value)
  }

  /** A registered callback accepts a longer URI below it. */
  lemma LongerUriAccepted()
    ensures ResolveRedirectUri(Some("https://app.example/cb"), Some("https://app.example/cb/extra"))
            == Resolved("https://app.example/cb/extra")
  {
    var p, s := "https://app.example/cb", "https://app.example/cb/extra";
    assert s[..|p|] == p;
    assert HasPrefixIgnoringCase(p, s) by {
      forall i | 0 <= i < |p| ensures Lower(s[i]) == Lower(p[i]) {
        assert s[i] == s[..|p|][i];
      }
    }
  }

  /** The comparison ignores ASCII case. */
  lemma UpperCaseUriAccepted()
    ensures ResolveRedirectUri(Some("https://a/cb"), Some("HTTPS://A/CB/x")) == Resolved("HTTPS://A/CB/x")
  {
    var p, s := "https://a/cb", "HTTPS://A/CB/x";
    assert HasPrefixIgnoringCase(p, s) by {
      forall i | 0 <= i < |p| ensures Lower(s[i]) == Lower(p[i]) {
        assert i < 12;
      }
    }
  }

  /** A URI on another host is refused. */
  lemma ForeignUriRefused()
    ensures ResolveRedirectUri(Some("https://app.example/cb"), Some("https://evil.example/cb")) == Mismatch
  {
    var p, s := "https://app.example/cb", "https://evil.example/cb";
    assert Lower(s[8]) != Lower(p[8]);
  }

  /** A falsy supplied URI ("0") defers to the registered one; with neither, the URI is missing. */
  lemma FalsyUriExamples()
    ensures ResolveRedirectUri(None, Some("https://app/cb")) == Resolved("https://app/cb")
    ensures ResolveRedirectUri(Some("https://app/cb"), Some("0")) == Resolved("https://app/cb")
    ensures ResolveRedirectUri(Some(""), Some("0")) == Missing
  {
  }
}
