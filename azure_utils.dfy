/**
  The shared helpers of the two Azure AD route handlers: configuration, the
  PKCE code verifier and S256 code challenge (sections 4.1 and 4.2 of
  RFC 7636), and the ephemeral store that keeps the verifier and the
  anti-CSRF state in two short-lived cookies between the login request and
  the callback request, deleted when read with a non-empty value.
*/
module AzureUtils {
  import opened Wrappers
  import opened Base64
  import opened Strings
  import opened Buffer
  import opened Cookies

  /** Client identifier, tenant and scopes of the Azure AD application. */
  datatype AzureConfig = AzureConfig(clientId: string, tenantId: string, scopes: seq<string>)

  /**
    `azureConfig`: the identifiers come from the environment (`|| ''`); the
    scope list holds one empty scope, so the scopes joined for a request are
    the empty string.
  */
  function ConfigFromEnvironment(clientIdVar: Option<string>, tenantIdVar: Option<string>): (c: AzureConfig)
    ensures |c.scopes| == 1 && Join(c.scopes, " ") == ""
    ensures c.clientId == clientIdVar.GetOr("") && c.tenantId == tenantIdVar.GetOr("")
  {
    AzureConfig(clientIdVar.GetOr(""), tenantIdVar.GetOr(""), [""])
  }

  const PkceVerifierCookie := "pkce_verifier"
  const AuthStateCookie := "auth_state"

  /** Lifetime of the two handshake cookies: ten minutes. */
  const HandshakeMaxAge := 60 * 10

  /** The attributes both store operations give their cookie. */
  function HandshakeCookieOptions(production: bool): CookieOptions {
    CookieOptions(httpOnly := true, secure := production, sameSite := Lax, maxAge := HandshakeMaxAge, path := "/")
  }

  /** The text a template literal gives for the `host` header, which may be absent. */
  function HostText(host: Option<string>): string {
    host.GetOr("null")
  }

  /** The redirect URI both route handlers compute from the request's host. */
  function CallbackRedirectUri(host: Option<string>): (uri: string)
    ensures StartsWith(uri, "https://")
  {
    "https://" + HostText(host) + "/api/azure/callback"
  }

  function AuthorizeEndpoint(tenantId: string): string {
    "https://login.microsoftonline.com/" + tenantId + "/oauth2/v2.0/authorize"
  }

  function TokenEndpoint(tenantId: string): string {
    "https://login.microsoftonline.com/" + tenantId + "/oauth2/v2.0/token"
  }

  // ---------------------------------------------------------------------------
  // PKCE values

  /** The chain `.replace(/\+/g, '-').replace(/\//g, '_').replace(/=/g, '')`. */
  function ToUrlSafe(b64: string): (r: string)
    ensures '+' !in r && '/' !in r && '=' !in r
    ensures '=' !in b64 ==> UrlAgrees(r, b64)
  {
    var replaced := ReplaceAll(ReplaceAll(b64, '+', '-'), '/', '_');
    assert '=' !in b64 ==> '=' !in replaced && UrlAgrees(replaced, b64);
    RemoveAll(replaced, '=')
  }

  /** The `=` padding at the end of an encoding disappears in the url-safe transform. */
  lemma PaddingDropped(body: string, pad: string)
    requires forall i :: 0 <= i < |pad| ==> pad[i] == '='
    ensures ToUrlSafe(body + pad) == ToUrlSafe(body)
  {
    ReplaceAllConcat(body, pad, '+', '-');
    ReplaceAllConcat(ReplaceAll(body, '+', '-'), ReplaceAll(pad, '+', '-'), '/', '_');
    var padReplaced := ReplaceAll(ReplaceAll(pad, '+', '-'), '/', '_');
    RemoveAllConcat(ReplaceAll(ReplaceAll(body, '+', '-'), '/', '_'), padReplaced, '=');
    RemoveAllOnly(padReplaced, '=');
  }

  /** A string has only one url-alphabet counterpart. */
  lemma UrlAgreesUnique(x: string, y: string, e: string)
    requires UrlAgrees(x, e) && UrlAgrees(y, e)
    ensures x == y
  {
  }

  /**
    The url-safe transform of a padded base64 encoding is the unpadded
    base64url encoding of section 5 of RFC 4648.
  */
  lemma UrlSafeIsBase64Url(bytes: seq<byte>)
    ensures ToUrlSafe(Encode(bytes)) == EncodeUrlUnpadded(bytes)
  {
    var body := EncodeUnpadded(bytes);
    PaddingDropped(body, seq(PaddingLength(|bytes|), _ => '='));
    assert '=' !in body;
    UrlEncodingAgrees(bytes);
    UrlAgreesUnique(ToUrlSafe(body), EncodeUrlUnpadded(bytes), body);
  }

  /** Number of random bytes, and of characters, of the verifier the login route asks for. */
  const DefaultVerifierLength: nat := 64

  /**
    `generateCodeVerifier(length)`: `random` stands for `randomBytes(length)`.
    The verifier has exactly `length` characters, all from the base64url
    alphabet.
  */
  function GenerateCodeVerifier(random: seq<byte>, length: nat): (verifier: string)
    requires |random| == length
    ensures |verifier| == length
    ensures forall i :: 0 <= i < |verifier| ==> IsUrlSafeChar(verifier[i])
  {
    UrlSafeIsBase64Url(random);
    SliceTo(ToUrlSafe(Encode(random)), length)
  }

  /** The verifier is a prefix of the unpadded base64url encoding of the random bytes. */
  lemma VerifierIsBase64UrlPrefix(random: seq<byte>, length: nat)
    requires |random| == length
    ensures GenerateCodeVerifier(random, length) <= EncodeUrlUnpadded(random)
  {
    UrlSafeIsBase64Url(random);
  }

  /** The default verifier length lies in the 43 to 128 characters section 4.1 of RFC 7636 allows. */
  lemma DefaultVerifierLengthInRange(random: seq<byte>)
    requires |random| == DefaultVerifierLength
    ensures 43 <= |GenerateCodeVerifier(random, DefaultVerifierLength)| <= 128
  {
  }

  /** A SHA-256 digest: 32 bytes. */
  type Digest = d: seq<byte> | |d| == 32 witness seq(32, _ => 0 as byte)

  /**
    `generateCodeChallenge(verifier)`: the S256 method of section 4.2 of
    RFC 7636, BASE64URL(SHA256(verifier)) without padding. `sha256` stands for
    `createHash('sha256')` applied to the UTF-8 bytes of its input.
  */
  function GenerateCodeChallenge(verifier: string, sha256: seq<byte> -> Digest): (challenge: string)
    ensures |challenge| == 43
    ensures forall i :: 0 <= i < |challenge| ==> IsUrlSafeChar(challenge[i])
  {
    UrlSafeIsBase64Url(sha256(FromString(verifier)));
    ToUrlSafe(Encode(sha256(FromString(verifier))))
  }

  /** The challenge is the unpadded base64url encoding of the digest of the verifier's UTF-8 bytes. */
  lemma ChallengeIsS256(verifier: string, sha256: seq<byte> -> Digest)
    ensures GenerateCodeChallenge(verifier, sha256) == EncodeUrlUnpadded(sha256(FromString(verifier)))
  {
    UrlSafeIsBase64Url(sha256(FromString(verifier)));
  }

  // ---------------------------------------------------------------------------
  // Ephemeral store: what a retrieval returns and what it leaves behind

  /** `cookieStore.get(name)?.value`. */
  function Peek(jar: Jar, name: string): Option<string> {
    if name in jar then Some(jar[name].value) else None
  }

  /** The store after a retrieval: the cookie is deleted only when its value is non-empty. */
  function Consume(jar: Jar, name: string): (r: Jar)
    ensures r.Keys == if Peek(jar, name).Some? && Peek(jar, name).value != "" then jar.Keys - {name} else jar.Keys
    ensures forall n :: n in r ==> r[n] == jar[n]
  {
    if name in jar && jar[name].value != "" then jar - {name} else jar
  }

  /** A retrieval that returned a non-empty value is not repeatable; an empty value stays. */
  lemma RetrieveTwice(jar: Jar, name: string)
    ensures Peek(Consume(jar, name), name) == if Peek(jar, name) == Some("") then Some("") else None
    ensures Consume(Consume(jar, name), name) == Consume(jar, name)
  {
  }

  /** A retrieval right after a store returns what was stored. */
  lemma StoreThenRetrieve(jar: Jar, name: string, value: string, options: CookieOptions)
    ensures Peek(jar[name := Cookie(value, options)], name) == Some(value)
  {
  }

  /** Storing or retrieving one slot leaves the other slot as it was. */
  lemma SlotsIndependent(jar: Jar, value: string, options: CookieOptions)
    ensures Peek(jar[PkceVerifierCookie := Cookie(value, options)], AuthStateCookie) == Peek(jar, AuthStateCookie)
    ensures Peek(jar[AuthStateCookie := Cookie(value, options)], PkceVerifierCookie) == Peek(jar, PkceVerifierCookie)
    ensures Peek(Consume(jar, PkceVerifierCookie), AuthStateCookie) == Peek(jar, AuthStateCookie)
    ensures Peek(Consume(jar, AuthStateCookie), PkceVerifierCookie) == Peek(jar, PkceVerifierCookie)
  {
  }

  /** `storePkceVerifier(verifier)`. */
  method StorePkceVerifier(store: CookieStore, verifier: string, production: bool)
    modifies store
    ensures store.cookies == old(store.cookies)[PkceVerifierCookie := Cookie(verifier, HandshakeCookieOptions(production))]
  {
    store.Set(PkceVerifierCookie, verifier, HandshakeCookieOptions(production));
  }

  /** `retrievePkceVerifier()`: returns the stored verifier and deletes it when it is non-empty. */
  method RetrievePkceVerifier(store: CookieStore) returns (verifier: Option<string>)
    modifies store
    ensures verifier == Peek(old(store.cookies), PkceVerifierCookie)
    ensures store.cookies == Consume(old(store.cookies), PkceVerifierCookie)
  {
    var cookie := store.Get(PkceVerifierCookie);
    verifier := if cookie.Some? then Some(cookie.value.value) else None;
    if verifier.Some? && verifier.value != "" {
      store.Delete(PkceVerifierCookie);
    }
  }

  /** `storeAuthState(state)`. */
  method StoreAuthState(store: CookieStore, state: string, production: bool)
    modifies store
    ensures store.cookies == old(store.cookies)[AuthStateCookie := Cookie(state, HandshakeCookieOptions(production))]
  {
    store.Set(AuthStateCookie, state, HandshakeCookieOptions(production));
  }

  /** `retrieveAuthState()`: returns the stored state and deletes it when it is non-empty. */
  method RetrieveAuthState(store: CookieStore) returns (state: Option<string>)
    modifies store
    ensures state == Peek(old(store.cookies), AuthStateCookie)
    ensures store.cookies == Consume(old(store.cookies), AuthStateCookie)
  {
    var cookie := store.Get(AuthStateCookie);
    state := if cookie.Some? then Some(cookie.value.value) else None;
    if state.Some? && state.value != "" {
      store.Delete(AuthStateCookie);
    }
  }
}
