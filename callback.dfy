/**
  The callback route: `GET /api/azure/callback?code=...&state=...`, where
  Azure AD sends the browser back after sign-in. It consumes the stored state
  and verifier, validates the request, redeems the authorization code at the
  token endpoint (section 4.1.3 of RFC 6749 with the `code_verifier` of
  section 4.5 of RFC 7636), and answers with a redirect: to the decoded
  return path with the session cookies, or to `/?error=<code>`.
*/
module Callback {
  import opened Wrappers
  import opened Strings
  import opened Buffer
  import opened Cookies
  import opened Urls
  import opened AzureUtils

  /** The error codes the route puts in `/?error=<code>`. */
  datatype ErrorCode = NoCode | InvalidState | MissingVerifier | TokenExchange | TokenMissing | CallbackError

  function ErrorName(e: ErrorCode): string {
    match e
    case NoCode => "no_code"
    case InvalidState => "invalid_state"
    case MissingVerifier => "missing_verifier"
    case TokenExchange => "token_exchange"
    case TokenMissing => "token_missing"
    case CallbackError => "callback_error"
  }

  /** Distinct codes have distinct names, so the error query parameter identifies the failure. */
  lemma ErrorNamesDistinct(e1: ErrorCode, e2: ErrorCode)
    ensures ErrorName(e1) == ErrorName(e2) <==> e1 == e2
  {
  }

  /** The result of `validateRequestParams`. */
  datatype Validation = Valid | Invalid(error: ErrorCode)

  /**
    `validateRequestParams(code, receivedState, storedState, codeVerifier)`:
    the code is checked first, then the state, then the verifier.
  */
  function ValidateRequestParams(code: Option<string>, receivedState: Option<string>, storedState: Option<string>,
                                 codeVerifier: Option<string>): (v: Validation)
    ensures v == Invalid(NoCode) <==> !Truthy(code)
    ensures v == Invalid(InvalidState) <==>
              Truthy(code) && (!Truthy(storedState) || !Truthy(receivedState) || receivedState != storedState)
    ensures v == Invalid(MissingVerifier) <==>
              Truthy(code) && Truthy(storedState) && receivedState == storedState && !Truthy(codeVerifier)
    ensures v == Valid <==>
              Truthy(code) && Truthy(storedState) && receivedState == storedState && Truthy(codeVerifier)
  {
    if !Truthy(code) then Invalid(NoCode)
    else if !Truthy(storedState) || !Truthy(receivedState) || receivedState != storedState then Invalid(InvalidState)
    else if !Truthy(codeVerifier) then Invalid(MissingVerifier)
    else Valid
  }

  /** The part of Azure AD's token response the route reads. */
  datatype TokenResponse = TokenResponse(accessToken: string, refreshToken: Option<string>, expiresIn: int)

  /**
    What `exchangeCodeForTokens` reports: a failure (the request threw), or a
    success carrying whatever the HTTP client returned, which may be nothing.
  */
  datatype ExchangeOutcome = ExchangeFailed | ExchangeSucceeded(tokens: Option<TokenResponse>)

  /** The POST request `exchangeCodeForTokens` sends. */
  datatype TokenRequest = TokenRequest(endpoint: string, contentType: string, body: seq<Param>)

  const TokenRequestKeys := ["client_id", "client_secret", "grant_type", "code", "redirect_uri", "code_verifier"]

  /**
    The token request of `exchangeCodeForTokens(code, redirectUri, codeVerifier)`:
    `clientSecret` stands for `AZURE_CLIENT_SECRET`, which may be unset.
  */
  function TokenRequestOf(config: AzureConfig, clientSecret: Option<string>, code: string, redirectUri: string,
                          codeVerifier: string): (r: TokenRequest)
    ensures r.endpoint == TokenEndpoint(config.tenantId)
    ensures r.contentType == "application/x-www-form-urlencoded"
    ensures Keys(r.body) == TokenRequestKeys
  {
    var body := [ Param("client_id", config.clientId), Param("client_secret", clientSecret.GetOr("")),
                  Param("grant_type", "authorization_code"), Param("code", code),
                  Param("redirect_uri", redirectUri), Param("code_verifier", codeVerifier) ];
    assert Keys(body) == TokenRequestKeys by {
      assert forall i :: 0 <= i < |body| ==> Keys(body)[i] == TokenRequestKeys[i];
    }
    TokenRequest(TokenEndpoint(config.tenantId), "application/x-www-form-urlencoded", body)
  }

  /**
    The token request is an authorization-code grant that redeems the code
    with the redirect URI and the verifier it is given (section 4.1.3 of
    RFC 6749, section 4.5 of RFC 7636); a missing secret is sent empty.
  */
  lemma TokenRequestCarries(config: AzureConfig, clientSecret: Option<string>, code: string, redirectUri: string,
                            codeVerifier: string)
    ensures var body := TokenRequestOf(config, clientSecret, code, redirectUri, codeVerifier).body;
      && Lookup(body, "client_id") == Some(config.clientId)
      && Lookup(body, "client_secret") == Some(clientSecret.GetOr(""))
      && Lookup(body, "grant_type") == Some("authorization_code")
      && Lookup(body, "code") == Some(code)
      && Lookup(body, "redirect_uri") == Some(redirectUri)
      && Lookup(body, "code_verifier") == Some(codeVerifier)
  {
    var body := TokenRequestOf(config, clientSecret, code, redirectUri, codeVerifier).body;
    LookupFirst(body, "client_id", 0);
    LookupFirst(body, "client_secret", 1);
    LookupFirst(body, "grant_type", 2);
    LookupFirst(body, "code", 3);
    LookupFirst(body, "redirect_uri", 4);
    LookupFirst(body, "code_verifier", 5);
  }

  /**
    `Buffer.from(storedState, 'base64').toString()`. For a well-formed
    encoding of valid UTF-8 this is the decoded text; for anything else
    Node.js substitutes or skips input, which `lenient` stands for.
  */
  function DecodedState(storedState: string, lenient: string): string {
    match FromBase64(storedState)
    case Some(text) => text
    case None => lenient
  }

  /** `decoded || '/'`, then `/` prefixed unless the path already starts with it. */
  function RedirectPath(decoded: string): (path: string)
    ensures StartsWith(path, "/")
    ensures decoded == "" ==> path == "/"
    ensures StartsWith(decoded, "/") ==> path == decoded
    ensures decoded != "" && !StartsWith(decoded, "/") ==> path == "/" + decoded
  {
    var p := if decoded == "" then "/" else decoded;
    if StartsWith(p, "/") then p else "/" + p
  }

  /**
    A decoded path that starts with `//` is kept as it is, so the redirect
    resolves a network-path reference whose authority is chosen by the path.
  */
  lemma NetworkPathKept(decoded: string)
    requires StartsWith(decoded, "//")
    ensures RedirectPath(decoded) == decoded
    ensures StartsWith(RedirectPath(decoded), "//")
  {
  }

  /** Normalising a normalised path changes nothing. */
  lemma RedirectPathIdempotent(decoded: string)
    ensures RedirectPath(RedirectPath(decoded)) == RedirectPath(decoded)
  {
  }

  /** Lifetime of the session cookies: 45 minutes. */
  const SessionMaxAge := 45 * 60

  const AccessTokenCookie := "azureToken"
  const RefreshTokenCookie := "refresh_token"

  /** The attributes both session cookies get. */
  function SessionCookieOptions(production: bool): CookieOptions {
    CookieOptions(httpOnly := true, secure := production, sameSite := Lax, maxAge := SessionMaxAge, path := "/")
  }

  /** The cookies of the success response, as a function of the tokens. */
  function SessionJar(tokens: TokenResponse, production: bool): Jar {
    var withAccess := map[AccessTokenCookie := Cookie(tokens.accessToken, SessionCookieOptions(production))];
    if Truthy(tokens.refreshToken) then withAccess[RefreshTokenCookie := Cookie(tokens.refreshToken.value, SessionCookieOptions(production))]
    else withAccess
  }

  /**
    The access token is always set; the refresh token is set, with the same
    attributes, exactly when it is truthy; nothing else is set; and
    `expires_in` plays no part.
  */
  lemma SessionCookies(tokens: TokenResponse, production: bool, otherExpiry: int)
    ensures var jar := SessionJar(tokens, production);
      && AccessTokenCookie in jar
      && jar[AccessTokenCookie] == Cookie(tokens.accessToken, CookieOptions(true, production, Lax, 2700, "/"))
      && (RefreshTokenCookie in jar <==> Truthy(tokens.refreshToken))
      && (RefreshTokenCookie in jar ==> jar[RefreshTokenCookie] == Cookie(tokens.refreshToken.value, jar[AccessTokenCookie].options))
      && jar.Keys <= {AccessTokenCookie, RefreshTokenCookie}
      && jar == SessionJar(tokens.(expiresIn := otherExpiry), production)
  {
  }

  /**
    Where a redirect points: `new URL(reference, base)`. Resolution of the
    reference against the base is not modelled.
  */
  datatype Location = Location(base: string, reference: string)

  /** The response: a redirect with the cookies it sets. */
  datatype CallbackResponse = Redirect(location: Location, cookies: Jar)

  /**
    `createAuthResponse(tokens, redirectUrl)`: a redirect whose cookie store
    receives the access token and, when present, the refresh token.
  */
  method CreateAuthResponse(tokens: TokenResponse, redirectUrl: Location, production: bool)
    returns (response: CallbackResponse)
    ensures response == Redirect(redirectUrl, SessionJar(tokens, production))
  {
    var cookies := new CookieStore(map[]);
    cookies.Set(AccessTokenCookie, tokens.accessToken, SessionCookieOptions(production));
    if Truthy(tokens.refreshToken) {
      cookies.Set(RefreshTokenCookie, tokens.refreshToken.value, SessionCookieOptions(production));
    }
    response := Redirect(redirectUrl, cookies.cookies);
  }

  /** What the route reads from the incoming request. */
  datatype CallbackRequest = CallbackRequest(url: string, protocol: string, host: Option<string>, query: seq<Param>)

  /** `NextResponse.redirect(new URL('/?error=<code>', request.url))`. */
  function ErrorRedirect(request: CallbackRequest, e: ErrorCode): (r: CallbackResponse)
    ensures r.location.base == request.url && r.cookies == map[]
    ensures StartsWith(r.location.reference, "/?error=")
  {
    Redirect(Location(request.url, "/?error=" + ErrorName(e)), map[])
  }

  /** Distinct failures give distinct error redirects, so the answer tells them apart. */
  lemma ErrorRedirectDistinct(request: CallbackRequest, e1: ErrorCode, e2: ErrorCode)
    ensures ErrorRedirect(request, e1) == ErrorRedirect(request, e2) <==> e1 == e2
  {
    var prefix := "/?error=";
    if ErrorRedirect(request, e1) == ErrorRedirect(request, e2) {
      var r1, r2 := prefix + ErrorName(e1), prefix + ErrorName(e2);
      assert r1 == r2;
      assert r1[|prefix|..] == ErrorName(e1);
      assert r2[|prefix|..] == ErrorName(e2);
      ErrorNamesDistinct(e1, e2);
    }
  }

  /**
    The steps at which the route's `try` block can throw: the first access to
    the cookie store, or `new URL(path, base)` rejecting the redirect URL it
    is asked to build from the decoded return path and the host header. Both
    end in `callback_error`.
  */
  datatype CallbackFault = NoFault | StoreFails | RedirectUrlRejected

  /** The answer of the route and the token request it sent, if any. */
  datatype Outcome = Outcome(response: CallbackResponse, tokenRequest: Option<TokenRequest>)

  /** The origin the success redirect resolves against: `${protocol}//${host}`. */
  function Origin(request: CallbackRequest): string {
    request.protocol + "//" + HostText(request.host)
  }

  /** What the route does, as a function of its inputs and the store before it. */
  function CallbackOf(jar: Jar, request: CallbackRequest, config: AzureConfig, clientSecret: Option<string>,
                      exchange: ExchangeOutcome, lenient: string, production: bool, fault: CallbackFault): Outcome
  {
    if fault == StoreFails then Outcome(ErrorRedirect(request, CallbackError), None)
    else
      var code := Lookup(request.query, "code");
      var storedState := Peek(jar, AuthStateCookie);
      var codeVerifier := Peek(Consume(jar, AuthStateCookie), PkceVerifierCookie);
      match ValidateRequestParams(code, Lookup(request.query, "state"), storedState, codeVerifier)
      case Invalid(e) => Outcome(ErrorRedirect(request, e), None)
      case Valid =>
        var tokenRequest := TokenRequestOf(config, clientSecret, code.value, CallbackRedirectUri(request.host), codeVerifier.value);
        if exchange.ExchangeFailed? then Outcome(ErrorRedirect(request, TokenExchange), Some(tokenRequest))
        else if fault == RedirectUrlRejected then Outcome(ErrorRedirect(request, CallbackError), Some(tokenRequest))
        else if exchange.tokens.None? then Outcome(ErrorRedirect(request, TokenMissing), Some(tokenRequest))
        else
          var path := RedirectPath(DecodedState(storedState.value, lenient));
          Outcome(Redirect(Location(Origin(request), path), SessionJar(exchange.tokens.value, production)), Some(tokenRequest))
  }

  /** The store after the route: both slots are retrieved unless the store itself fails. */
  function CallbackJarOf(jar: Jar, fault: CallbackFault): Jar {
    if fault == StoreFails then jar else Consume(Consume(jar, AuthStateCookie), PkceVerifierCookie)
  }

  /**
    `GET(request)`. `exchange` stands for what the token endpoint answers,
    `lenient` for what Node.js makes of a stored state that is not
    well-formed base64 of UTF-8 text, `production` for
    `NODE_ENV === 'production'`.
  */
  method Get(store: CookieStore, request: CallbackRequest, config: AzureConfig, clientSecret: Option<string>,
             exchange: ExchangeOutcome, lenient: string, production: bool, fault: CallbackFault)
    returns (outcome: Outcome)
    modifies store
    ensures outcome == CallbackOf(old(store.cookies), request, config, clientSecret, exchange, lenient, production, fault)
    ensures store.cookies == CallbackJarOf(old(store.cookies), fault)
  {
    if fault == StoreFails {
      return Outcome(ErrorRedirect(request, CallbackError), None);
    }
    var code := Lookup(request.query, "code");
    var receivedState := Lookup(request.query, "state");
    var storedState := RetrieveAuthState(store);
    var codeVerifier := RetrievePkceVerifier(store);

    var validation := ValidateRequestParams(code, receivedState, storedState, codeVerifier);
    if validation.Invalid? {
      return Outcome(ErrorRedirect(request, validation.error), None);
    }

    var redirectUri := CallbackRedirectUri(request.host);
    var tokenRequest := TokenRequestOf(config, clientSecret, code.value, redirectUri, codeVerifier.value);
    if exchange.ExchangeFailed? {
      return Outcome(ErrorRedirect(request, TokenExchange), Some(tokenRequest));
    }

    var redirectPath := RedirectPath(DecodedState(storedState.value, lenient));
    if fault == RedirectUrlRejected {
      return Outcome(ErrorRedirect(request, CallbackError), Some(tokenRequest));
    }
    var redirectUrl := Location(Origin(request), redirectPath);
    if exchange.tokens.None? {
      return Outcome(ErrorRedirect(request, TokenMissing), Some(tokenRequest));
    }
    var response := CreateAuthResponse(exchange.tokens.value, redirectUrl, production);
    outcome := Outcome(response, Some(tokenRequest));
  }

  // ---------------------------------------------------------------------------
  // Properties of the route

  /** A request that fails validation redirects to its error code and sends no token request. */
  lemma InvalidMeansNoExchange(jar: Jar, request: CallbackRequest, config: AzureConfig, clientSecret: Option<string>,
                               exchange: ExchangeOutcome, lenient: string, production: bool)
    ensures var v := ValidateRequestParams(Lookup(request.query, "code"), Lookup(request.query, "state"),
                                           Peek(jar, AuthStateCookie), Peek(jar, PkceVerifierCookie));
      var outcome := CallbackOf(jar, request, config, clientSecret, exchange, lenient, production, NoFault);
      && (v.Invalid? ==> outcome == Outcome(ErrorRedirect(request, v.error), None))
      && (v.Valid? <==> outcome.tokenRequest.Some?)
  {
    SlotsIndependent(jar, "", HandshakeCookieOptions(false));
  }

  /**
    After a validated request, the exchange decides: a failure gives
    `token_exchange`, a success without tokens gives `token_missing` (when
    the redirect URL could be built), and a success with tokens redirects to
    the normalised path with the session cookies.
  */
  lemma ExchangeDecides(jar: Jar, request: CallbackRequest, config: AzureConfig, clientSecret: Option<string>,
                        exchange: ExchangeOutcome, lenient: string, production: bool)
    requires ValidateRequestParams(Lookup(request.query, "code"), Lookup(request.query, "state"),
                                   Peek(jar, AuthStateCookie), Peek(jar, PkceVerifierCookie)) == Valid
    ensures var outcome := CallbackOf(jar, request, config, clientSecret, exchange, lenient, production, NoFault);
      && (exchange.ExchangeFailed? ==> outcome.response == ErrorRedirect(request, TokenExchange))
      && (exchange == ExchangeSucceeded(None) ==> outcome.response == ErrorRedirect(request, TokenMissing))
      && (exchange.ExchangeSucceeded? && exchange.tokens.Some? ==>
            outcome.response == Redirect(Location(Origin(request), RedirectPath(DecodedState(Peek(jar, AuthStateCookie).value, lenient))),
                                         SessionJar(exchange.tokens.value, production)))
      && outcome.tokenRequest == Some(TokenRequestOf(config, clientSecret, Lookup(request.query, "code").value,
                                                     CallbackRedirectUri(request.host), Peek(jar, PkceVerifierCookie).value))
  {
    SlotsIndependent(jar, "", HandshakeCookieOptions(false));
  }

  /**
    Every redirect the route gives, whatever the fault, resolves a reference
    that starts with `/`: an error reference or the normalised return path.
    A reference starting with `//` is a network-path reference (section 4.2
    of RFC 3986) and leaves the origin; `NetworkPathKept` shows one passes.
  */
  lemma RedirectReferenceStartsWithSlash(jar: Jar, request: CallbackRequest, config: AzureConfig, clientSecret: Option<string>,
                                         exchange: ExchangeOutcome, lenient: string, production: bool, fault: CallbackFault)
    ensures var r := CallbackOf(jar, request, config, clientSecret, exchange, lenient, production, fault).response;
      StartsWith(r.location.reference, "/")
  {
  }

  /**
    Both slots are consumed by every run that reaches the store: afterwards
    neither holds a non-empty value, and every other cookie is as it was.
  */
  lemma SlotsConsumed(jar: Jar, fault: CallbackFault)
    requires fault != StoreFails
    ensures var after := CallbackJarOf(jar, fault);
      && !Truthy(Peek(after, AuthStateCookie))
      && !Truthy(Peek(after, PkceVerifierCookie))
      && forall name :: name != AuthStateCookie && name != PkceVerifierCookie ==> Peek(after, name) == Peek(jar, name)
  {
  }

  /** Replaying a callback against the store it left behind fails with `invalid_state`, whatever the code. */
  lemma ReplayRejected(jar: Jar, request: CallbackRequest, config: AzureConfig, clientSecret: Option<string>,
                       exchange: ExchangeOutcome, lenient: string, production: bool)
    requires Truthy(Lookup(request.query, "code"))
    ensures var after := CallbackJarOf(jar, NoFault);
      CallbackOf(after, request, config, clientSecret, exchange, lenient, production, NoFault)
        == Outcome(ErrorRedirect(request, InvalidState), None)
  {
    SlotsConsumed(jar, NoFault);
  }
}
