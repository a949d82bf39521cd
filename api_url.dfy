/**
 * How the client picks the backend base URL (`getApiUrl`): an explicit
 * override, then the local development hosts, then the page's own origin with
 * its port rewritten to the backend's port 8081.
 */
module ApiUrl {
  import opened Text

  /** The backend a developer runs next to the page. */
  const DevBackend := "http://localhost:8081"

  predicate IsLocalHost(hostname: string) {
    hostname == "localhost" || hostname == "127.0.0.1"
  }

  /**
   * `getApiUrl()`. `backendUrl` is `window.BACKEND_URL` ("" when it is unset or
   * otherwise falsy); `hostname`, `port` and `origin` are those of
   * `window.location`. The contract gives the resolution order, with the two
   * `replace` calls stated through the positions their patterns match.
   */
  function GetApiUrl(backendUrl: string, hostname: string, port: string, origin: string): (r: string)
    // 1. an override wins
    ensures backendUrl != "" ==> r == backendUrl
    // 2. local development
    ensures backendUrl == "" && IsLocalHost(hostname) ==> r == DevBackend
    // 3. port 8080: the first ":8080" becomes ":8081"; nothing else changes
    ensures backendUrl == "" && !IsLocalHost(hostname) && port == "8080" ==>
      && ((forall j :: !OccursAt(origin, ":8080", j)) ==> r == origin)
      && (forall i :: FirstOccurrence(origin, ":8080", i) ==> r == origin[..i] + ":8081" + origin[i + 5..])
    // 4. otherwise a trailing ":<digits>" becomes ":8081"; an origin without one is
    //    kept, and the development backend is the answer only for an empty origin
    ensures backendUrl == "" && !IsLocalHost(hostname) && port != "8080" ==>
      && (forall k :: PortSuffixAt(origin, k) ==> r == origin[..k] + ":8081")
      && (origin != "" && (forall k :: !PortSuffixAt(origin, k)) ==> r == origin)
      && (origin == "" ==> r == DevBackend)
    // the only way to get no URL at all: port 8080 on an empty origin
    ensures r == "" <==> backendUrl == "" && !IsLocalHost(hostname) && port == "8080" && origin == ""
  {
    if backendUrl != "" then backendUrl
    else if IsLocalHost(hostname) then DevBackend
    else if port == "8080" then ReplaceFirst(origin, ":8080", ":8081")
    else
      var rewritten := ReplacePortSuffix(origin, ":8081");
      if rewritten != "" then rewritten else DevBackend
  }

  /**
   * When the origin really ends in ":8080", the port-8080 rule and the generic
   * port rewrite give the same URL: the special case only matters for origins
   * whose first ":8080" is not their port.
   */
  lemma Port8080MatchesPortRewrite(origin: string, k: nat)
    requires k + 5 == |origin| && origin[k..] == ":8080"
    requires forall j :: 0 <= j < k ==> !OccursAt(origin, ":8080", j)
    ensures ReplaceFirst(origin, ":8080", ":8081") == ReplacePortSuffix(origin, ":8081") == origin[..k] + ":8081"
  {
    assert OccursAt(origin, ":8080", k);
    assert origin[k + 5..] == [];
    assert forall i :: k + 1 <= i < |origin| ==> origin[i] == origin[k..][i - k];
    assert PortSuffixAt(origin, k);
  }
}
