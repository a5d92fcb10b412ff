/**
 * Password authentication against the OpenStack Identity API v3: the token endpoint rule,
 * reading a token from a token-issue response, and the cached token with its 10-minute
 * refresh rule. Time is whole seconds; the network round trip of a token request is a parameter.
 */
module Identity {
  import opened Wrappers
  import opened Errors
  import opened Http

  const MissingSubjectHeader: string := "Missing X-Subject-Token header"
  const InvalidSubjectHeader: string := "Invalid X-Subject-Token header"

  /** Minutes a cached token must still be valid for to be reused: exactly 10 left means refresh. */
  const TokenMinValidity: int := 10
  const SecondsPerMinute: int := 60

  /** The interface used when a caller names none (the authentication interface's default). */
  const DefaultEndpointInterface: string := "public"

  datatype Endpoint = Endpoint(interface: string, region: Option<string>, url: string)
  datatype CatalogRecord = CatalogRecord(serviceType: string, endpoints: seq<Endpoint>)

  /** The token document of a token-issue response body: expiry (in seconds) and service catalog. */
  datatype TokenBody = TokenBody(expiresAt: int, catalog: seq<CatalogRecord>)

  /** An issued token: the `X-Subject-Token` value and the token document. */
  datatype Token = Token(value: string, body: TokenBody)

  /** A token-issue response: the raw `x-subject-token` header, if any, and the decoded body. */
  datatype TokenResponse = TokenResponse(subjectToken: Option<seq<byte>>, body: Result<TokenBody, Error>)

  datatype UserAndPassword = UserAndPassword(name: string, password: string, domainName: string)
  datatype ProjectScope = ProjectScope(projectName: string, projectDomainName: string)

  /** The JSON document posted to request a token: password identity and optional project scope. */
  datatype AuthRoot = AuthRoot(methods: seq<string>, user: UserAndPassword, scope: Option<ProjectScope>)

  /** A token request as issued: where it is posted, what is posted and with which content type. */
  datatype TokenRequest = TokenRequest(url: string, body: AuthRoot, contentType: string)

  // ---------------------------------------------------------------------------
  // Token endpoint
  // ---------------------------------------------------------------------------

  /** The token endpoint: `/auth/tokens` after a URL whose path already ends in `/v3`, else `/v3/auth/tokens`. */
  function TokenEndpoint(url: Url): (r: string)
    ensures |url.serialized| < |r| && r[..|url.serialized|] == url.serialized
    ensures EndsWith(r, "/auth/tokens")
    ensures EndsWith(url.path, "/v3") <==> |r| == |url.serialized| + |"/auth/tokens"|
    ensures r[|url.serialized|..] == if EndsWith(url.path, "/v3") then "/auth/tokens" else "/v3/auth/tokens"
  {
    if EndsWith(url.path, "/v3") then url.serialized + "/auth/tokens"
    else
      var e := url.serialized + "/v3/auth/tokens";
      assert e[|e| - |"/auth/tokens"|..] == "/auth/tokens";
      e
  }

  /** A suffix of a suffix is a suffix. */
  lemma EndsWithTransitive(s: string, t: string, u: string)
    requires EndsWith(s, t) && EndsWith(t, u)
    ensures EndsWith(s, u)
  {
    assert s[|s| - |u|..] == s[|s| - |t|..][|t| - |u|..];
  }

  /** Appending the same text to both sides keeps a suffix. */
  lemma EndsWithAppend(s: string, t: string, tail: string)
    requires EndsWith(s, t)
    ensures EndsWith(s + tail, t + tail)
  {
    var r := s + tail;
    assert r[|r| - |t + tail|..] == s[|s| - |t|..] + tail;
  }

  /**
   * When the serialization ends with the path (no query or fragment), the endpoint is the
   * serialization followed by a suffix, and that endpoint always ends in `/v3/auth/tokens`.
   */
  lemma TokenEndpointShape(url: Url)
    requires EndsWith(url.serialized, url.path)
    ensures |url.serialized| <= |TokenEndpoint(url)| && TokenEndpoint(url)[..|url.serialized|] == url.serialized
    ensures EndsWith(TokenEndpoint(url), "/v3/auth/tokens")
    ensures EndsWith(url.path, "/v3") ==> TokenEndpoint(url) == url.serialized + "/auth/tokens"
    ensures !EndsWith(url.path, "/v3") ==> TokenEndpoint(url) == url.serialized + "/v3/auth/tokens"
  {
    if EndsWith(url.path, "/v3") {
      EndsWithTransitive(url.serialized, url.path, "/v3");
      EndsWithAppend(url.serialized, "/v3", "/auth/tokens");
      var v3: string, tail: string := "/v3", "/auth/tokens";
      assert forall i :: 0 <= i < 15 ==> (v3 + tail)[i] == "/v3/auth/tokens"[i];
      assert v3 + tail == "/v3/auth/tokens";
    } else {
      var e := url.serialized + "/v3/auth/tokens";
      assert e[|e| - 15..] == "/v3/auth/tokens";
    }
  }

  /** The suffix rule for every URL, whatever follows the path in its serialization. */
  lemma TokenEndpointRule(url: Url)
    ensures EndsWith(url.path, "/v3") ==> TokenEndpoint(url) == url.serialized + "/auth/tokens"
    ensures !EndsWith(url.path, "/v3") ==> TokenEndpoint(url) == url.serialized + "/v3/auth/tokens"
  {
    var r := TokenEndpoint(url);
    assert r == r[..|url.serialized|] + r[|url.serialized|..];
  }

  /** The crate's example: an auth URL with path `/identity`. */
  lemma TokenEndpointExample()
    ensures TokenEndpoint(Url("http://127.0.0.1:8080/identity", "/identity"))
      == "http://127.0.0.1:8080/identity/v3/auth/tokens"
  {
  }

  /** A bare host URL serializes with a trailing `/`, so the suffix rule yields a doubled slash. */
  lemma TokenEndpointOfRootPath()
    ensures TokenEndpoint(Url("http://127.0.0.1:8080/", "/")) == "http://127.0.0.1:8080//v3/auth/tokens"
  {
  }

  // ---------------------------------------------------------------------------
  // token_from_response
  // ---------------------------------------------------------------------------

  /**
   * Reads an issued token: the `x-subject-token` header must be present and visible ASCII, and
   * only then is the body's token document used.
   */
  function TokenFromResponse(resp: TokenResponse): (r: Result<Token, Error>)
    ensures resp.subjectToken.None? ==> r == Failure(NewError(InvalidResponse, MissingSubjectHeader))
    ensures resp.subjectToken.Some? && HeaderToStr(resp.subjectToken.value).None? ==>
      r == Failure(NewError(InvalidResponse, InvalidSubjectHeader))
    ensures resp.subjectToken.Some? && HeaderToStr(resp.subjectToken.value).Some? && resp.body.Failure? ==>
      r == Failure(resp.body.error)
    ensures r.Success? <==>
      resp.subjectToken.Some? && HeaderToStr(resp.subjectToken.value).Some? && resp.body.Success?
    ensures r.Success? ==>
      && |r.value.value| == |resp.subjectToken.value|
      && (forall i :: 0 <= i < |r.value.value| ==> r.value.value[i] as int == resp.subjectToken.value[i] as int)
      && r.value.body == resp.body.value
  {
    match resp.subjectToken
    case None => Failure(NewError(InvalidResponse, MissingSubjectHeader))
    case Some(raw) =>
      match HeaderToStr(raw)
      case None => Failure(NewError(InvalidResponse, InvalidSubjectHeader))
      case Some(value) =>
        match resp.body
        case Failure(e) => Failure(e)
        case Success(tb) => Success(Token(value, tb))
  }

  /** A header with a byte that is neither visible ASCII nor tab is rejected, even when the body is fine. */
  lemma NonTextHeaderRejected(raw: seq<byte>, i: nat, body: Result<TokenBody, Error>)
    requires i < |raw| && !VisibleAscii(raw[i])
    ensures TokenFromResponse(TokenResponse(Some(raw), body)) == Failure(NewError(InvalidResponse, InvalidSubjectHeader))
  {
  }

  // ---------------------------------------------------------------------------
  // The cache and its refresh rule
  // ---------------------------------------------------------------------------

  /** The validity check of `do_refresh`: strictly more than 10 minutes left. */
  predicate TokenValid(t: Token, now: int) {
    t.body.expiresAt - now > TokenMinValidity * SecondsPerMinute
  }

  /** `ValueCache::validate`: a token is cached and it passes the check. */
  predicate CacheValid(cache: Option<Token>, now: int) {
    cache.Some? && TokenValid(cache.value, now)
  }

  /** What one refresh does: its result, the cache afterwards, and whether a token request was sent. */
  datatype Refreshed = Refreshed(result: Result<(), Error>, cache: Option<Token>, requested: bool)

  /**
   * The refresh state machine: a valid cached token is kept without any request; otherwise one
   * token request is made (its outcome is `send`) and only a token read from a successful
   * response replaces the cache.
   */
  function RefreshOutcome(cache: Option<Token>, now: int, send: Result<TokenResponse, Error>): (r: Refreshed)
    ensures r.requested <==> !CacheValid(cache, now)
    ensures !r.requested ==> r.result.Success? && r.cache == cache
    ensures r.result.Failure? ==> r.cache == cache
    ensures r.result.Success? ==> r.cache.Some?
    ensures r.requested && r.result.Success? ==>
      send.Success? && TokenFromResponse(send.value).Success? && r.cache == Some(TokenFromResponse(send.value).value)
    ensures r.requested && send.Success? && TokenFromResponse(send.value).Success? ==>
      r.result.Success? && r.cache == Some(TokenFromResponse(send.value).value)
  {
    if CacheValid(cache, now) then
      Refreshed(Success(()), cache, false)
    else
      match send
      case Failure(e) => Refreshed(Failure(e), cache, true)
      case Success(resp) =>
        match TokenFromResponse(resp)
        case Failure(e) => Refreshed(Failure(e), cache, true)
        case Success(t) => Refreshed(Success(()), Some(t), true)
  }

  /** More than 10 minutes left: no request, cache unchanged, success. */
  lemma RefreshKeepsValidToken(t: Token, now: int, send: Result<TokenResponse, Error>)
    requires t.body.expiresAt - now > 600
    ensures RefreshOutcome(Some(t), now, send) == Refreshed(Success(()), Some(t), false)
  {
  }

  /** An empty cache, or 10 minutes or less left (exactly 10 included), always sends one request. */
  lemma RefreshRequestsWhenStale(cache: Option<Token>, now: int, send: Result<TokenResponse, Error>)
    requires cache.None? || cache.value.body.expiresAt - now <= 600
    ensures RefreshOutcome(cache, now, send).requested
  {
  }

  /** A sent request that fails, or whose response holds no readable token, leaves the cache untouched. */
  lemma RefreshFailureKeepsCache(cache: Option<Token>, now: int, send: Result<TokenResponse, Error>)
    requires !CacheValid(cache, now)
    requires send.Failure? || TokenFromResponse(send.value).Failure?
    ensures RefreshOutcome(cache, now, send).cache == cache
    ensures RefreshOutcome(cache, now, send).result.Failure?
    ensures RefreshOutcome(cache, now, send).result.error
      == (if send.Failure? then send.error else TokenFromResponse(send.value).error)
  {
  }

  /** A sent request that yields a token replaces the cache with exactly that token. */
  lemma RefreshStoresIssuedToken(cache: Option<Token>, now: int, send: Result<TokenResponse, Error>)
    requires !CacheValid(cache, now)
    requires send.Success? && TokenFromResponse(send.value).Success?
    ensures RefreshOutcome(cache, now, send) == Refreshed(Success(()), Some(TokenFromResponse(send.value).value), true)
  {
  }

  /** After a successful refresh a token is always cached, so reading it back cannot fail. */
  lemma RefreshSuccessLeavesToken(cache: Option<Token>, now: int, send: Result<TokenResponse, Error>)
    requires RefreshOutcome(cache, now, send).result.Success?
    ensures RefreshOutcome(cache, now, send).cache.Some?
  {
  }

  /**
   * A refresh right after a successful one, at a time when the new token is still valid, sends
   * nothing and changes nothing, whatever the network would answer.
   */
  lemma RefreshIdempotent(cache: Option<Token>, now: int, later: int,
                          send: Result<TokenResponse, Error>, again: Result<TokenResponse, Error>)
    requires RefreshOutcome(cache, now, send).result.Success?
    requires TokenValid(RefreshOutcome(cache, now, send).cache.value, later)
    ensures RefreshOutcome(RefreshOutcome(cache, now, send).cache, later, again)
      == Refreshed(Success(()), RefreshOutcome(cache, now, send).cache, false)
  {
  }

  /**
   * The newly issued token is stored without checking its own expiry: a token issued with only a
   * minute left is cached, and the cache is then not valid.
   */
  lemma RefreshMayStoreShortLivedToken()
    ensures var issuedResp := TokenResponse(Some([97]), Success(TokenBody(60, [])));
      && RefreshOutcome(None, 0, Success(issuedResp)) == Refreshed(Success(()), Some(Token("a", TokenBody(60, []))), true)
      && !CacheValid(RefreshOutcome(None, 0, Success(issuedResp)).cache, 0)
  {
    var raw: seq<byte> := [97];
    assert VisibleAscii(raw[0]);
    var text := HeaderToStr(raw).value;
    assert |text| == 1 && text[0] as int == 97;
    assert text == "a";
  }

  // ---------------------------------------------------------------------------
  // Password
  // ---------------------------------------------------------------------------

  /** Password authentication: settings, the derived token endpoint and the single cached token. */
  class Password {
    var authUrl: Url
    var region: Option<string>
    var body: AuthRoot
    var tokenEndpoint: string
    var cached: Option<Token>

    /** `new_with_client` once the auth URL has parsed: no region, no scope, nothing cached. */
    constructor (url: Url, userName: string, password: string, userDomainName: string)
      ensures authUrl == url && tokenEndpoint == TokenEndpoint(url)
      ensures body == AuthRoot(["password"], UserAndPassword(userName, password, userDomainName), None)
      ensures region.None? && cached.None?
    {
      authUrl := url;
      tokenEndpoint := TokenEndpoint(url);
      body := AuthRoot(["password"], UserAndPassword(userName, password, userDomainName), None);
      region := None;
      cached := None;
    }

    /** `user_name`: the user name the auth document carries. */
    function UserName(): (r: string)
      reads this
      ensures r == body.user.name
    {
      body.user.name
    }

    /** `region`: the region set on the object, if any. */
    function Region(): (r: Option<string>)
      reads this
      ensures r == region
    {
      region
    }

    /** Sets the region and nothing else. */
    method SetRegion(newRegion: string)
      modifies this`region
      ensures region == Some(newRegion)
    {
      region := Some(newRegion);
    }

    /** Scopes the token request to a project; the identity part of the request is unchanged. */
    method SetProjectScope(projectName: string, projectDomainName: string)
      modifies this`body
      ensures body == old(body).(scope := Some(ProjectScope(projectName, projectDomainName)))
    {
      body := body.(scope := Some(ProjectScope(projectName, projectDomainName)));
    }

    /** `with_region`: `set_region`, then the same object. */
    method WithRegion(newRegion: string) returns (p: Password)
      modifies this`region
      ensures p == this && region == Some(newRegion)
    {
      SetRegion(newRegion);
      p := this;
    }

    /** `with_project_scope`: `set_project_scope`, then the same object. */
    method WithProjectScope(projectName: string, projectDomainName: string) returns (p: Password)
      modifies this`body
      ensures p == this
      ensures body == old(body).(scope := Some(ProjectScope(projectName, projectDomainName)))
    {
      SetProjectScope(projectName, projectDomainName);
      p := this;
    }

    /**
     * `do_refresh`: reuses a valid cached token, otherwise posts the auth document to the token
     * endpoint (answered by `send`) and caches the token read from the response.
     */
    method DoRefresh(now: int, send: Result<TokenResponse, Error>) returns (r: Result<(), Error>, issued: Option<TokenRequest>)
      modifies this`cached
      ensures r == RefreshOutcome(old(cached), now, send).result
      ensures cached == RefreshOutcome(old(cached), now, send).cache
      ensures issued == if RefreshOutcome(old(cached), now, send).requested
                        then Some(TokenRequest(tokenEndpoint, body, "application/json")) else None
      ensures r.Success? ==> cached.Some?
    {
      if cached.Some? && cached.value.body.expiresAt - now > TokenMinValidity * SecondsPerMinute {
        r, issued := Success(()), None;
        return;
      }
      issued := Some(TokenRequest(tokenEndpoint, body, "application/json"));
      match send {
        case Failure(e) =>
          r := Failure(e);
        case Success(resp) =>
          var token := TokenFromResponse(resp);
          match token {
            case Failure(e) =>
              r := Failure(e);
            case Success(t) =>
              cached := Some(t);
              r := Success(());
          }
      }
    }

    /** `refresh` of the authentication interface: `do_refresh`, with the token request it sent, if any. */
    method Refresh(now: int, send: Result<TokenResponse, Error>) returns (r: Result<(), Error>, issued: Option<TokenRequest>)
      modifies this`cached
      ensures r == RefreshOutcome(old(cached), now, send).result
      ensures cached == RefreshOutcome(old(cached), now, send).cache
      ensures issued.Some? <==> !CacheValid(old(cached), now)
      ensures issued.Some? ==> issued.value == TokenRequest(tokenEndpoint, body, "application/json")
    {
      r, issued := DoRefresh(now, send);
    }

    /** `get_token`: refresh, then the cached token's value. */
    method GetToken(now: int, send: Result<TokenResponse, Error>) returns (r: Result<string, Error>)
      modifies this`cached
      ensures cached == RefreshOutcome(old(cached), now, send).cache
      ensures r.Success? <==> RefreshOutcome(old(cached), now, send).result.Success?
      ensures r.Success? ==> cached.Some? && r.value == cached.value.value
      ensures r.Failure? ==> r.error == RefreshOutcome(old(cached), now, send).result.error
    {
      var refreshed, issued := DoRefresh(now, send);
      if refreshed.Failure? {
        return Failure(refreshed.error);
      }
      r := Success(cached.value.value);
    }

    /** `get_catalog`: refresh, then the cached token's catalog. */
    method GetCatalog(now: int, send: Result<TokenResponse, Error>) returns (r: Result<seq<CatalogRecord>, Error>)
      modifies this`cached
      ensures cached == RefreshOutcome(old(cached), now, send).cache
      ensures r.Success? <==> RefreshOutcome(old(cached), now, send).result.Success?
      ensures r.Success? ==> cached.Some? && r.value == cached.value.body.catalog
      ensures r.Failure? ==> r.error == RefreshOutcome(old(cached), now, send).result.error
    {
      var refreshed, issued := DoRefresh(now, send);
      if refreshed.Failure? {
        return Failure(refreshed.error);
      }
      r := Success(cached.value.body.catalog);
    }

    /** `request`: a request for the method and URL carrying the current token as `x-auth-token`. */
    method Request(verb: Method, url: Url, now: int, send: Result<TokenResponse, Error>) returns (r: Result<HttpRequest, Error>)
      modifies this`cached
      ensures cached == RefreshOutcome(old(cached), now, send).cache
      ensures r.Success? <==> RefreshOutcome(old(cached), now, send).result.Success?
      ensures r.Success? ==>
        && cached.Some?
        && r.value == NewRequest(verb, url).(headers := [("x-auth-token", cached.value.value)])
      ensures r.Failure? ==> r.error == RefreshOutcome(old(cached), now, send).result.error
    {
      var token := GetToken(now, send);
      match token {
        case Failure(e) =>
          r := Failure(e);
        case Success(value) =>
          var req := NewRequest(verb, url);
          r := Success(req.(headers := req.headers + [("x-auth-token", value)]));
      }
    }

    /**
     * `get_endpoint`: the catalog endpoint for a service and interface (the default interface when
     * none is given) in this object's region, as a parsed URL. Endpoint selection is `findEndpoint`;
     * a URL that does not parse is an invalid response.
     */
    method GetEndpoint(serviceType: string, endpointInterface: Option<string>, now: int,
                       send: Result<TokenResponse, Error>,
                       findEndpoint: (seq<CatalogRecord>, string, string, Option<string>) -> Result<Endpoint, Error>,
                       parseUrl: string -> Result<Url, string>)
      returns (r: Result<Url, Error>)
      modifies this`cached
      ensures cached == RefreshOutcome(old(cached), now, send).cache
      ensures RefreshOutcome(old(cached), now, send).result.Failure? ==>
        r == Failure(RefreshOutcome(old(cached), now, send).result.error)
      ensures RefreshOutcome(old(cached), now, send).result.Success? ==>
        var found := findEndpoint(cached.value.body.catalog, serviceType,
                                  endpointInterface.GetOr(DefaultEndpointInterface), region);
        && (found.Failure? ==> r == Failure(found.error))
        && (found.Success? && parseUrl(found.value.url).Failure? ==>
              r == Failure(NewError(InvalidResponse,
                   "Invalid URL " + found.value.url + " for " + serviceType + " - " + parseUrl(found.value.url).error)))
        && (found.Success? && parseUrl(found.value.url).Success? ==> r == Success(parseUrl(found.value.url).value))
    {
      var realInterface := endpointInterface.GetOr(DefaultEndpointInterface);
      var catalog := GetCatalog(now, send);
      if catalog.Failure? {
        return Failure(catalog.error);
      }
      var found := findEndpoint(catalog.value, serviceType, realInterface, region);
      if found.Failure? {
        return Failure(found.error);
      }
      var endpoint := found.value;
      match parseUrl(endpoint.url) {
        case Failure(e) =>
          r := Failure(NewError(InvalidResponse, "Invalid URL " + endpoint.url + " for " + serviceType + " - " + e));
        case Success(u) =>
          r := Success(u);
      }
    }
  }

  /**
   * `new_with_client` (and `new`, which only supplies a default HTTP client): parse the auth URL,
   * failing with the parser's error, then build the authentication object.
   */
  method NewWithClient(authUrl: string, intoUrl: string -> Result<Url, Error>,
                       userName: string, password: string, userDomainName: string)
    returns (r: Result<Password, Error>)
    ensures intoUrl(authUrl).Failure? ==> r == Failure(intoUrl(authUrl).error)
    ensures intoUrl(authUrl).Success? ==>
      && r.Success? && fresh(r.value)
      && r.value.authUrl == intoUrl(authUrl).value
      && r.value.tokenEndpoint == TokenEndpoint(intoUrl(authUrl).value)
      && r.value.body == AuthRoot(["password"], UserAndPassword(userName, password, userDomainName), None)
      && r.value.region.None? && r.value.cached.None?
  {
    var url :- intoUrl(authUrl);
    var p := new Password(url, userName, password, userDomainName);
    r := Success(p);
  }

  /** The crate's construction example: scoped to a project, the settings are as given and no region is set. */
  method IdentityCreateExample(intoUrl: string -> Result<Url, Error>) returns (id: Password)
    requires intoUrl("http://127.0.0.1:8080/identity") == Success(Url("http://127.0.0.1:8080/identity", "/identity"))
    ensures id.authUrl.serialized == "http://127.0.0.1:8080/identity"
    ensures id.UserName() == "user" && id.body.user.password == "pa$$w0rd"
    ensures id.body.user.domainName == "example.com" && id.body.methods == ["password"]
    ensures id.body.scope == Some(ProjectScope("cool project", "example.com"))
    ensures id.tokenEndpoint == "http://127.0.0.1:8080/identity/v3/auth/tokens"
    ensures id.Region().None?
  {
    var created := NewWithClient("http://127.0.0.1:8080/identity", intoUrl, "user", "pa$$w0rd", "example.com");
    var p := created.value;
    id := p.WithProjectScope("cool project", "example.com");
    TokenEndpointExample();
  }
}
