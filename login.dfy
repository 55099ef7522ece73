/**
  The login route: `GET /api/azure/login?returnUrl=<path>`. It creates a PKCE
  verifier and challenge, stores the verifier and the state (the base64 form
  of the return path) in the ephemeral store, and redirects the browser to the
  Azure AD authorization endpoint with the request of section 4.1.1 of
  RFC 6749 extended by section 4.3 of RFC 7636.
*/
module Login {
  import opened Wrappers
  import opened Base64
  import opened Strings
  import opened Buffer
  import opened Cookies
  import opened Urls
  import opened AzureUtils

  /** What the route answers: a redirect to the authorization endpoint, or a JSON error. */
  datatype LoginResponse =
    | RedirectTo(endpoint: string, query: seq<Param>)
    | JsonError(status: int, message: string)

  /**
    The step at which an exception is thrown, if any: `randomBytes` failing,
    or the cookie store (`cookies()`) failing while the verifier or the state
    is stored. The other steps of the route cannot throw.
  */
  datatype LoginFault = NoFault | RandomBytesFails | VerifierStoreFails | StateStoreFails

  const LoginErrorMessage := "Failed to redirect to login"

  /** `searchParams.get('returnUrl') || '/'`. */
  function ReturnUrl(returnUrlParam: Option<string>): (r: string)
    ensures r != ""
    ensures returnUrlParam.Some? && returnUrlParam.value != "" ==> r == returnUrlParam.value
    ensures returnUrlParam.None? || returnUrlParam.value == "" ==> r == "/"
  {
    if returnUrlParam.Some? && returnUrlParam.value != "" then returnUrlParam.value else "/"
  }

  /** The anti-CSRF state: `Buffer.from(returnUrl).toString('base64')`. */
  function StateOf(returnUrl: string): (state: string)
    ensures FromBase64(state) == Some(returnUrl)
    ensures returnUrl != "" ==> state != ""
  {
    FromBase64ToBase64(returnUrl);
    ToBase64(returnUrl)
  }

  /** The keys of the authorization request, in the order the route appends them. */
  const AuthorizationKeys := ["client_id", "response_type", "redirect_uri", "scope", "response_mode",
                              "code_challenge", "code_challenge_method", "state"]

  /** The pairs the route appends before the state, in order. */
  function RequestParams(config: AzureConfig, redirectUri: string, challenge: string): seq<Param> {
    [ Param("client_id", config.clientId), Param("response_type", "code"), Param("redirect_uri", redirectUri),
      Param("scope", Join(config.scopes, " ")), Param("response_mode", "query"),
      Param("code_challenge", challenge), Param("code_challenge_method", "S256") ]
  }

  /** The code verifier is not among the keys: it never leaves the server through the browser. */
  lemma VerifierNotAKey()
    ensures "code_verifier" !in AuthorizationKeys
  {
    var v := "code_verifier";
    assert v[0] == 'c' && v[1] == 'o' && |v| == 13;
    assert forall k :: k in AuthorizationKeys && |k| == 13 ==> k[0] == 'r';
  }

  /** The authorization request's query pairs. */
  function AuthorizationQuery(config: AzureConfig, redirectUri: string, challenge: string, state: string): seq<Param> {
    RequestParams(config, redirectUri, challenge) + [Param("state", state)]
  }

  /** What the route answers, as a function of its inputs. */
  function LoginResponseOf(host: Option<string>, returnUrlParam: Option<string>, config: AzureConfig,
                           random: seq<byte>, sha256: seq<byte> -> Digest, fault: LoginFault): LoginResponse
    requires |random| == DefaultVerifierLength
  {
    if fault != NoFault then JsonError(500, LoginErrorMessage)
    else
      var verifier := GenerateCodeVerifier(random, DefaultVerifierLength);
      RedirectTo(AuthorizeEndpoint(config.tenantId),
                 AuthorizationQuery(config, CallbackRedirectUri(host), GenerateCodeChallenge(verifier, sha256),
                                    StateOf(ReturnUrl(returnUrlParam))))
  }

  /** The cookie store after the route, as a function of the store before it. */
  function LoginJarOf(jar: Jar, returnUrlParam: Option<string>, random: seq<byte>, production: bool,
                      fault: LoginFault): Jar
    requires |random| == DefaultVerifierLength
  {
    var withVerifier :=
      jar[PkceVerifierCookie := Cookie(GenerateCodeVerifier(random, DefaultVerifierLength), HandshakeCookieOptions(production))];
    match fault
    case RandomBytesFails => jar
    case VerifierStoreFails => jar
    case StateStoreFails => withVerifier
    case NoFault => withVerifier[AuthStateCookie := Cookie(StateOf(ReturnUrl(returnUrlParam)), HandshakeCookieOptions(production))]
  }

  /** The seven `append` calls that precede the state. */
  method AppendRequestParams(searchParams: SearchParams, config: AzureConfig, redirectUri: string, challenge: string)
    modifies searchParams
    ensures searchParams.pairs == old(searchParams.pairs) + RequestParams(config, redirectUri, challenge)
  {
    searchParams.Append("client_id", config.clientId);
    searchParams.Append("response_type", "code");
    searchParams.Append("redirect_uri", redirectUri);
    searchParams.Append("scope", Join(config.scopes, " "));
    searchParams.Append("response_mode", "query");
    searchParams.Append("code_challenge", challenge);
    searchParams.Append("code_challenge_method", "S256");
  }

  /**
    `GET(request)`. `random` stands for the 64 bytes `randomBytes` returns,
    `sha256` for Node's SHA-256, `production` for `NODE_ENV === 'production'`.
  */
  method Get(store: CookieStore, host: Option<string>, returnUrlParam: Option<string>, config: AzureConfig,
             random: seq<byte>, sha256: seq<byte> -> Digest, production: bool, fault: LoginFault)
    returns (response: LoginResponse)
    requires |random| == DefaultVerifierLength
    modifies store
    ensures response == LoginResponseOf(host, returnUrlParam, config, random, sha256, fault)
    ensures store.cookies == LoginJarOf(old(store.cookies), returnUrlParam, random, production, fault)
  {
    var returnUrl := ReturnUrl(returnUrlParam);
    var redirectUri := CallbackRedirectUri(host);
    if fault == RandomBytesFails {
      return JsonError(500, LoginErrorMessage);
    }
    var codeVerifier := GenerateCodeVerifier(random, DefaultVerifierLength);
    var codeChallenge := GenerateCodeChallenge(codeVerifier, sha256);
    if fault == VerifierStoreFails {
      return JsonError(500, LoginErrorMessage);
    }
    StorePkceVerifier(store, codeVerifier, production);

    var searchParams := new SearchParams();
    AppendRequestParams(searchParams, config, redirectUri, codeChallenge);
    assert searchParams.pairs == RequestParams(config, redirectUri, codeChallenge);

    var state := StateOf(returnUrl);
    if fault == StateStoreFails {
      return JsonError(500, LoginErrorMessage);
    }
    StoreAuthState(store, state, production);
    searchParams.Append("state", state);
    assert searchParams.pairs == AuthorizationQuery(config, redirectUri, codeChallenge, state);
    response := RedirectTo(AuthorizeEndpoint(config.tenantId), searchParams.pairs);
  }

  // ---------------------------------------------------------------------------
  // Properties of the route

  /** Any exception gives the JSON 500 answer; without one the answer is always a redirect. */
  lemma FailureIsServerError(host: Option<string>, returnUrlParam: Option<string>, config: AzureConfig,
                             random: seq<byte>, sha256: seq<byte> -> Digest, fault: LoginFault)
    requires |random| == DefaultVerifierLength
    ensures LoginResponseOf(host, returnUrlParam, config, random, sha256, fault).RedirectTo? <==> fault == NoFault
    ensures fault != NoFault ==> LoginResponseOf(host, returnUrlParam, config, random, sha256, fault)
                                 == JsonError(500, "Failed to redirect to login")
  {
  }

  /**
    The verifier is stored before the state: whenever the state slot is
    written the verifier slot is too, and both are written before a redirect.
    A fault before the verifier is stored leaves the store as it was.
  */
  lemma StoreOrder(jar: Jar, returnUrlParam: Option<string>, random: seq<byte>, production: bool, fault: LoginFault)
    requires |random| == DefaultVerifierLength
    ensures var after := LoginJarOf(jar, returnUrlParam, random, production, fault);
      && (fault == NoFault ==> Peek(after, AuthStateCookie) == Some(StateOf(ReturnUrl(returnUrlParam))))
      && (fault in {NoFault, StateStoreFails} ==> Peek(after, PkceVerifierCookie) == Some(GenerateCodeVerifier(random, DefaultVerifierLength)))
      && (fault in {RandomBytesFails, VerifierStoreFails} ==> after == jar)
      && (fault != NoFault ==> Peek(after, AuthStateCookie) == Peek(jar, AuthStateCookie))
  {
  }

  /**
    The redirect goes to the tenant's authorization endpoint with exactly the
    keys of the authorization request, in order; the verifier is never a
    parameter.
  */
  lemma RedirectShape(host: Option<string>, returnUrlParam: Option<string>, config: AzureConfig,
                      random: seq<byte>, sha256: seq<byte> -> Digest)
    requires |random| == DefaultVerifierLength
    ensures var response := LoginResponseOf(host, returnUrlParam, config, random, sha256, NoFault);
      && response.RedirectTo?
      && response.endpoint == AuthorizeEndpoint(config.tenantId)
      && Keys(response.query) == AuthorizationKeys
      && "code_verifier" !in Keys(response.query)
  {
    var verifier := GenerateCodeVerifier(random, DefaultVerifierLength);
    QueryKeys(config, CallbackRedirectUri(host), GenerateCodeChallenge(verifier, sha256), StateOf(ReturnUrl(returnUrlParam)));
  }

  /**
    What the redirect carries: its `state` is the stored state, its
    `code_challenge` is the S256 challenge of the stored verifier, its
    `redirect_uri` is the callback URI for the host, and its `scope` is the
    scopes joined with single spaces.
  */
  lemma RedirectCarriesStoredValues(jar: Jar, host: Option<string>, returnUrlParam: Option<string>, config: AzureConfig,
                                    random: seq<byte>, sha256: seq<byte> -> Digest, production: bool)
    requires |random| == DefaultVerifierLength
    ensures var q := LoginResponseOf(host, returnUrlParam, config, random, sha256, NoFault).query;
      var after := LoginJarOf(jar, returnUrlParam, random, production, NoFault);
      && Lookup(q, "state") == Peek(after, AuthStateCookie)
      && Peek(after, PkceVerifierCookie).Some?
      && Lookup(q, "code_challenge") == Some(GenerateCodeChallenge(Peek(after, PkceVerifierCookie).value, sha256))
      && Lookup(q, "redirect_uri") == Some(CallbackRedirectUri(host))
      && Lookup(q, "scope") == Some(Join(config.scopes, " "))
      && Lookup(q, "client_id") == Some(config.clientId)
  {
    var verifier := GenerateCodeVerifier(random, DefaultVerifierLength);
    var challenge := GenerateCodeChallenge(verifier, sha256);
    var state := StateOf(ReturnUrl(returnUrlParam));
    var redirectUri := CallbackRedirectUri(host);
    var q := AuthorizationQuery(config, redirectUri, challenge, state);
    assert LoginResponseOf(host, returnUrlParam, config, random, sha256, NoFault).query == q;
    var after := LoginJarOf(jar, returnUrlParam, random, production, NoFault);
    assert Peek(after, AuthStateCookie) == Some(state) && Peek(after, PkceVerifierCookie) == Some(verifier);
    assert && Lookup(q, "state") == Some(state)
           && Lookup(q, "code_challenge") == Some(challenge)
           && Lookup(q, "redirect_uri") == Some(redirectUri)
           && Lookup(q, "scope") == Some(Join(config.scopes, " "))
           && Lookup(q, "client_id") == Some(config.clientId)
    by {
      QueryLookups(config, redirectUri, challenge, state);
    }
  }

  /**
    With the configuration read from the environment, the redirect goes to the
    tenant named by the environment (or to the empty tenant), names the
    client given there (or the empty one), and asks for the empty scope.
  */
  lemma EnvironmentAuthorization(host: Option<string>, returnUrlParam: Option<string>,
                                 clientIdVar: Option<string>, tenantIdVar: Option<string>,
                                 random: seq<byte>, sha256: seq<byte> -> Digest)
    requires |random| == DefaultVerifierLength
    ensures var response := LoginResponseOf(host, returnUrlParam, ConfigFromEnvironment(clientIdVar, tenantIdVar),
                                            random, sha256, NoFault);
      && response.RedirectTo?
      && response.endpoint == AuthorizeEndpoint(tenantIdVar.GetOr(""))
      && Lookup(response.query, "client_id") == Some(clientIdVar.GetOr(""))
      && Lookup(response.query, "scope") == Some("")
  {
    var config := ConfigFromEnvironment(clientIdVar, tenantIdVar);
    RedirectShape(host, returnUrlParam, config, random, sha256);
    RedirectCarriesStoredValues(map[], host, returnUrlParam, config, random, sha256, false);
  }

  /** The keys of the authorization request; the verifier is not among them. */
  lemma QueryKeys(config: AzureConfig, redirectUri: string, challenge: string, state: string)
    ensures var q := AuthorizationQuery(config, redirectUri, challenge, state);
      && Keys(q) == AuthorizationKeys
      && "code_verifier" !in Keys(q)
  {
    var q := AuthorizationQuery(config, redirectUri, challenge, state);
    assert forall i :: 0 <= i < |q| ==> q[i].key == AuthorizationKeys[i];
    assert Keys(q) == AuthorizationKeys;
    VerifierNotAKey();
  }

  /** A lookup of each key finds the value the route appended under it. */
  lemma QueryLookups(config: AzureConfig, redirectUri: string, challenge: string, state: string)
    ensures var q := AuthorizationQuery(config, redirectUri, challenge, state);
      && Lookup(q, "client_id") == Some(config.clientId)
      && Lookup(q, "response_type") == Some("code")
      && Lookup(q, "redirect_uri") == Some(redirectUri)
      && Lookup(q, "scope") == Some(Join(config.scopes, " "))
      && Lookup(q, "response_mode") == Some("query")
      && Lookup(q, "code_challenge") == Some(challenge)
      && Lookup(q, "code_challenge_method") == Some("S256")
      && Lookup(q, "state") == Some(state)
  {
    var q := AuthorizationQuery(config, redirectUri, challenge, state);
    LookupFirst(q, "client_id", 0);
    LookupFirst(q, "response_type", 1);
    LookupFirst(q, "redirect_uri", 2);
    LookupFirst(q, "scope", 3);
    LookupFirst(q, "response_mode", 4);
    LookupFirst(q, "code_challenge", 5);
    LookupFirst(q, "code_challenge_method", 6);
    LookupFirst(q, "state", 7);
  }

}
