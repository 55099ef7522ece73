/**
  The whole handshake: the login route, the browser's trip to Azure AD and
  back, and the callback route. The authorization server is trusted to echo
  the `state` it was given (section 4.1.2 of RFC 6749) and to hand out a code;
  everything else follows from the two routes.
*/
module Handshake {
  import opened Wrappers
  import opened Base64
  import opened Strings
  import opened Cookies
  import opened Urls
  import opened AzureUtils
  import Login
  import Callback

  /** The callback request Azure AD sends the browser to: the code and the echoed state. */
  function ReturnTrip(url: string, protocol: string, host: Option<string>, code: string, state: string): Callback.CallbackRequest {
    Callback.CallbackRequest(url, protocol, host, [Param("code", code), Param("state", state)])
  }

  /** A completed login leaves a non-empty state and a non-empty verifier in the store. */
  lemma LoginLeavesHandshake(jar: Jar, returnUrlParam: Option<string>, random: seq<byte>, production: bool)
    requires |random| == DefaultVerifierLength
    ensures var after := Login.LoginJarOf(jar, returnUrlParam, random, production, Login.NoFault);
      && Peek(after, AuthStateCookie) == Some(Login.StateOf(Login.ReturnUrl(returnUrlParam)))
      && Peek(after, PkceVerifierCookie) == Some(GenerateCodeVerifier(random, DefaultVerifierLength))
      && Login.StateOf(Login.ReturnUrl(returnUrlParam)) != ""
      && GenerateCodeVerifier(random, DefaultVerifierLength) != ""
  {
    Login.StoreOrder(jar, returnUrlParam, random, production, Login.NoFault);
  }

  /** The query of the callback request gives back the code and the state it was built from. */
  lemma ReturnTripLookups(url: string, protocol: string, host: Option<string>, code: string, state: string)
    ensures var q := ReturnTrip(url, protocol, host, code, state).query;
      Lookup(q, "code") == Some(code) && Lookup(q, "state") == Some(state)
  {
  }

  /**
    A login followed by a callback carrying a code and the state the login
    put in its redirect (the value `Login.RedirectCarriesStoredValues` shows
    the redirect carries) passes validation and, once the token endpoint
    answers with tokens, redirects to the return path given at login,
    normalised to start with `/`, with the session cookies.
  */
  lemma HandshakeSucceeds(jar: Jar, host: Option<string>, returnUrlParam: Option<string>, config: AzureConfig,
                          random: seq<byte>, sha256: seq<byte> -> Digest, production: bool,
                          url: string, protocol: string, code: string, state: string,
                          clientSecret: Option<string>, tokens: Callback.TokenResponse, lenient: string)
    requires |random| == DefaultVerifierLength
    requires state == Login.StateOf(Login.ReturnUrl(returnUrlParam))
    requires code != ""
    ensures var afterLogin := Login.LoginJarOf(jar, returnUrlParam, random, production, Login.NoFault);
      var request := ReturnTrip(url, protocol, host, code, state);
      var outcome := Callback.CallbackOf(afterLogin, request, config, clientSecret,
                                         Callback.ExchangeSucceeded(Some(tokens)), lenient, production, Callback.NoFault);
      outcome.response == Callback.Redirect(Callback.Location(Callback.Origin(request),
                                                              Callback.RedirectPath(Login.ReturnUrl(returnUrlParam))),
                                            Callback.SessionJar(tokens, production))
  {
    var afterLogin := Login.LoginJarOf(jar, returnUrlParam, random, production, Login.NoFault);
    Login.RedirectCarriesStoredValues(jar, host, returnUrlParam, config, random, sha256, production);
    LoginLeavesHandshake(jar, returnUrlParam, random, production);
    ReturnTripLookups(url, protocol, host, code, state);
    var request := ReturnTrip(url, protocol, host, code, state);
    assert Callback.ValidateRequestParams(Lookup(request.query, "code"), Lookup(request.query, "state"),
                                          Peek(afterLogin, AuthStateCookie), Peek(afterLogin, PkceVerifierCookie)) == Callback.Valid;
    assert Callback.DecodedState(state, lenient) == Login.ReturnUrl(returnUrlParam);
    Callback.ExchangeDecides(afterLogin, request, config, clientSecret, Callback.ExchangeSucceeded(Some(tokens)), lenient, production);
  }

  /**
    A return URL starting with `//` given at login comes back unchanged as the
    reference the success redirect resolves against the callback's origin: a
    network-path reference, which names a host of its own.
  */
  lemma ReturnUrlMayLeaveOrigin(jar: Jar, host: Option<string>, returnUrl: string, config: AzureConfig,
                                random: seq<byte>, sha256: seq<byte> -> Digest, production: bool,
                                url: string, protocol: string, code: string,
                                clientSecret: Option<string>, tokens: Callback.TokenResponse, lenient: string)
    requires |random| == DefaultVerifierLength
    requires StartsWith(returnUrl, "//")
    requires code != ""
    ensures var afterLogin := Login.LoginJarOf(jar, Some(returnUrl), random, production, Login.NoFault);
      var request := ReturnTrip(url, protocol, host, code, Login.StateOf(returnUrl));
      var outcome := Callback.CallbackOf(afterLogin, request, config, clientSecret,
                                         Callback.ExchangeSucceeded(Some(tokens)), lenient, production, Callback.NoFault);
      outcome.response.location == Callback.Location(Callback.Origin(request), returnUrl)
  {
    assert Login.ReturnUrl(Some(returnUrl)) == returnUrl;
    HandshakeSucceeds(jar, host, Some(returnUrl), config, random, sha256, production, url, protocol, code,
                      Login.StateOf(returnUrl), clientSecret, tokens, lenient);
    Callback.NetworkPathKept(returnUrl);
  }

  /**
    The token request of that callback proves possession of the verifier
    (section 4.6 of RFC 7636): the S256 challenge of the `code_verifier` it
    sends is the `code_challenge` of the login redirect. It also repeats the
    redirect's `redirect_uri` and `client_id` (section 4.1.3 of RFC 6749) and
    redeems the code the callback received. The state the callback carries
    is the `state` parameter of the login redirect.
  */
  lemma HandshakeBindsVerifier(jar: Jar, host: Option<string>, returnUrlParam: Option<string>, config: AzureConfig,
                               random: seq<byte>, sha256: seq<byte> -> Digest, production: bool,
                               url: string, protocol: string, code: string, state: string,
                               clientSecret: Option<string>, exchange: Callback.ExchangeOutcome, lenient: string)
    requires |random| == DefaultVerifierLength
    requires state == Login.StateOf(Login.ReturnUrl(returnUrlParam))
    requires code != ""
    ensures var q := Login.LoginResponseOf(host, returnUrlParam, config, random, sha256, Login.NoFault).query;
      var afterLogin := Login.LoginJarOf(jar, returnUrlParam, random, production, Login.NoFault);
      var outcome := Callback.CallbackOf(afterLogin, ReturnTrip(url, protocol, host, code, state), config, clientSecret,
                                         exchange, lenient, production, Callback.NoFault);
      && Lookup(q, "state") == Some(state)
      && outcome.tokenRequest.Some?
      && var body := outcome.tokenRequest.value.body;
      && Lookup(body, "code_verifier").Some?
      && Lookup(q, "code_challenge") == Some(GenerateCodeChallenge(Lookup(body, "code_verifier").value, sha256))
      && Lookup(body, "redirect_uri") == Lookup(q, "redirect_uri")
      && Lookup(body, "client_id") == Lookup(q, "client_id")
      && Lookup(body, "code") == Some(code)
  {
    var afterLogin := Login.LoginJarOf(jar, returnUrlParam, random, production, Login.NoFault);
    var verifier := GenerateCodeVerifier(random, DefaultVerifierLength);
    var request := ReturnTrip(url, protocol, host, code, state);
    Login.RedirectCarriesStoredValues(jar, host, returnUrlParam, config, random, sha256, production);
    LoginLeavesHandshake(jar, returnUrlParam, random, production);
    ReturnTripLookups(url, protocol, host, code, state);
    assert Callback.ValidateRequestParams(Lookup(request.query, "code"), Lookup(request.query, "state"),
                                          Peek(afterLogin, AuthStateCookie), Peek(afterLogin, PkceVerifierCookie)) == Callback.Valid;
    Callback.ExchangeDecides(afterLogin, request, config, clientSecret, exchange, lenient, production);
    Callback.TokenRequestCarries(config, clientSecret, code, CallbackRedirectUri(host), verifier);
  }

  /**
    The handshake is single-use: after the callback neither slot holds a
    value, every other cookie is as it was before the login, and replaying
    the same callback fails with `invalid_state`.
  */
  lemma HandshakeSingleUse(jar: Jar, returnUrlParam: Option<string>, random: seq<byte>, production: bool,
                           request: Callback.CallbackRequest, config: AzureConfig, clientSecret: Option<string>,
                           exchange: Callback.ExchangeOutcome, lenient: string)
    requires |random| == DefaultVerifierLength
    requires Truthy(Lookup(request.query, "code"))
    ensures var afterLogin := Login.LoginJarOf(jar, returnUrlParam, random, production, Login.NoFault);
      var afterCallback := Callback.CallbackJarOf(afterLogin, Callback.NoFault);
      && Peek(afterCallback, AuthStateCookie).None?
      && Peek(afterCallback, PkceVerifierCookie).None?
      && (forall name :: name != AuthStateCookie && name != PkceVerifierCookie ==> Peek(afterCallback, name) == Peek(jar, name))
      && Callback.CallbackOf(afterCallback, request, config, clientSecret, exchange, lenient, production, Callback.NoFault)
           == Callback.Outcome(Callback.ErrorRedirect(request, Callback.InvalidState), None)
  {
    var afterLogin := Login.LoginJarOf(jar, returnUrlParam, random, production, Login.NoFault);
    var verifier := GenerateCodeVerifier(random, DefaultVerifierLength);
    var state := Login.StateOf(Login.ReturnUrl(returnUrlParam));
    LoginLeavesHandshake(jar, returnUrlParam, random, production);
    assert afterLogin == jar[PkceVerifierCookie := Cookie(verifier, HandshakeCookieOptions(production))]
                            [AuthStateCookie := Cookie(state, HandshakeCookieOptions(production))];
    BothSlotsConsumed(jar, verifier, state, HandshakeCookieOptions(production));
    Callback.ReplayRejected(afterLogin, request, config, clientSecret, exchange, lenient, production);
  }

  /** Retrieving two non-empty slots written on top of a store gives back the store without them. */
  lemma BothSlotsConsumed(jar: Jar, verifier: string, state: string, options: CookieOptions)
    requires verifier != "" && state != ""
    ensures var after := Callback.CallbackJarOf(jar[PkceVerifierCookie := Cookie(verifier, options)]
                                                   [AuthStateCookie := Cookie(state, options)], Callback.NoFault);
      && Peek(after, AuthStateCookie).None?
      && Peek(after, PkceVerifierCookie).None?
      && (forall name :: name != AuthStateCookie && name != PkceVerifierCookie ==> Peek(after, name) == Peek(jar, name))
  {
  }
}
