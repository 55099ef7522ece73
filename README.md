# Azure AD sign-in handshake, modelled in Dafny

This project models the Azure AD sign-in of a Next.js application: the
OAuth 2.0 authorization-code flow with PKCE (RFC 6749 section 4.1, RFC 7636).
It covers four files:

- `src/app/api/azure/utils.ts` holds the shared configuration. It also holds
  the PKCE verifier and its S256 challenge, and the ephemeral store. That store
  keeps the verifier (`pkce_verifier`) and the anti-CSRF state (`auth_state`)
  in two short-lived http-only cookies, and deletes each one when it is read
  with a non-empty value.
- `src/app/api/azure/login/route.ts` (`GET /api/azure/login?returnUrl=...`)
  creates the verifier and the challenge. It stores the verifier and the state,
  which is the base64 form of the return path. It then redirects to the
  tenant's authorization endpoint.
- `src/app/api/azure/callback/route.ts` (`GET /api/azure/callback?code=...&state=...`)
  consumes both stored values and validates the request. It redeems the code at
  the token endpoint, then either redirects to the return path with the
  `azureToken` and `refresh_token` session cookies, or redirects to
  `/?error=<code>`.
- `src/core/utils.ts` holds the browser-side `setCookie`, `getCookie` and
  `deleteCookie`, which build or read the text of `document.cookie`.

Modules:

- `Wrappers`: `Option`.
- `Base64`: RFC 4648 sections 4 and 5, with the decode/encode round trip.
- `Strings`: the JavaScript string operations used.
- `Buffer`: UTF-8 and the base64 conversions of Node.js `Buffer`.
- `Cookies`: the Next.js cookie store, as a class over a map.
- `Urls`: `URLSearchParams`, as a class over a pair list.
- `AzureUtils`, `Login`, `Callback` and `ClientCookies`: the four files above.
- `Handshake`: lemmas that run the login route and then the callback route.

Each route handler is a method that changes a `CookieStore`. The method is
proved equal to a function of the store before it and of the route's inputs
(`LoginResponseOf`/`LoginJarOf`, `CallbackOf`/`CallbackJarOf`), and the lemmas
are stated about those functions.

Things the modelled code gets from outside become parameters:

- `randomBytes(64)` becomes a 64-byte sequence.
- SHA-256 becomes a function to 32-byte digests.
- `encodeURIComponent` and `decodeURIComponent` become functions.
  `decodeURIComponent` returns None where it would throw.
- The token endpoint's answer becomes an `ExchangeOutcome`.
- `NODE_ENV === 'production'` becomes a `production` flag.
- The `host` header becomes an `Option`.
- The steps that can throw inside a `try` become a fault value.

Three things the code does that its names and comments do not say:

- `retrievePkceVerifier` and `retrieveAuthState` are documented as
  "Retrieves and clears" (src/app/api/azure/utils.ts:57, 85), but they delete
  the cookie only when its value is non-empty (`if (verifier)`). An empty
  value stays in the store. `AzureUtils.Consume` and `AzureUtils.RetrieveTwice`
  say this.
- `token_missing` is reported only when the whole token response is falsy.
  The route does not look at `access_token` before setting the cookies.
- A redirect URL that `new URL` rejects gives `callback_error`. Because the
  redirect URL is built first, this takes precedence over `token_missing`.

## Model

| member | source | states |
|---|---|---|
| Base64.DigitValue | src/app/api/azure/utils.ts:24 | every 6-bit value maps to a base64 digit that maps back to the value |
| Base64.EncodeUnpadded | src/app/api/azure/utils.ts:24 | the encoding without padding has (4n+2)/3 characters, all from the base64 alphabet |
| Base64.PaddedLength | src/app/api/azure/utils.ts:24 | encoding plus padding is 4·⌈n/3⌉ characters, a multiple of four |
| Base64.Encode | src/app/api/azure/utils.ts:24 | `toString('base64')` yields the unpadded length plus the padding, a multiple of four |
| Base64.Decode | src/app/api/azure/callback/route.ts:127 | only input whose length is a multiple of four decodes |
| Base64.TripleRoundTrip | src/app/api/azure/callback/route.ts:127 | a decoded group of four digits gives back the three bytes it encodes |
| Base64.OneByteRoundTrip | src/app/api/azure/callback/route.ts:127 | a one-byte tail (two `=`) decodes back to its byte |
| Base64.TwoBytesRoundTrip | src/app/api/azure/callback/route.ts:127 | a two-byte tail (one `=`) decodes back to its bytes |
| Base64.EncodeStep | src/app/api/azure/utils.ts:24 | encoding proceeds three bytes at a time, from the front |
| Base64.DecodeStep | src/app/api/azure/callback/route.ts:127 | decoding proceeds four digits at a time, from the front |
| Base64.DecodeEncode | src/app/api/azure/callback/route.ts:127 | decoding the base64 encoding of any bytes gives the bytes back |
| Base64.UrlDigit | src/app/api/azure/utils.ts:25-26 | the url alphabet agrees with the standard one except that 62 is `-` and 63 is `_` |
| Base64.EncodeUrlUnpadded | src/app/api/azure/utils.ts:38 | base64url without padding has (4n+2)/3 characters, all url-safe |
| Base64.UrlAgreesConcat | src/app/api/azure/utils.ts:25-26 | the url-alphabet relation between two strings is preserved by concatenation |
| Base64.UrlAgreesStep | src/app/api/azure/utils.ts:25-26 | the base64url and base64 encodings agree on a sequence if they agree on its tail past the first three bytes |
| Base64.UrlEncodingAgrees | src/app/api/azure/utils.ts:25-26 | the base64url encoding is the base64 encoding with `+` and `/` mapped to `-` and `_`, character by character |
| Strings.ReplaceAll | src/app/api/azure/utils.ts:25-26 | global single-character replace keeps the length and replaces exactly the matching characters |
| Strings.RemoveAll | src/app/api/azure/utils.ts:27 | deleting a character leaves none of it, is no longer than the input, and changes nothing when it is absent |
| Strings.ReplaceAllConcat | src/app/api/azure/utils.ts:25-26 | replacing in a concatenation replaces in each part |
| Strings.RemoveAllOnly | src/app/api/azure/utils.ts:27 | removing `=` from a run of `=` padding leaves nothing |
| Strings.RemoveAllConcat | src/app/api/azure/utils.ts:27 | removing from a concatenation removes from each part |
| Strings.SliceTo | src/app/api/azure/utils.ts:28 | `slice(0, n)` is the prefix of length min(n, length) |
| Strings.IndexOf | src/core/utils.ts:57 | `indexOf` is -1 exactly when there is no occurrence, and otherwise the first occurrence |
| Strings.IndexOfZero | src/core/utils.ts:57 | `indexOf(p) === 0` exactly when p is a prefix |
| Strings.Split | src/core/utils.ts:53 | `split(';')` gives at least one part and no part contains the separator |
| Strings.JoinSplit | src/core/utils.ts:53 | joining (`Strings.Join`, `parts.join(sep)`) the parts of a split with the separator gives the string back |
| Strings.SplitJoin | src/core/utils.ts:53 | splitting a join of parts free of the separator gives the parts back |
| Strings.SplitPrefixed | src/core/utils.ts:53 | a split of a part, the separator and a rest starts with that part |
| Strings.SplitSingle | src/core/utils.ts:53 | a string without the separator splits into itself |
| Strings.TrimStartMeaning | src/core/utils.ts:56 | trimming the start drops exactly the leading white space |
| Strings.TrimEndMeaning | src/core/utils.ts:56 | trimming the end drops exactly the trailing white space |
| Strings.TrimMeaning | src/core/utils.ts:56 | `trim()` keeps a slice, drops only white space around it and leaves none at either end |
| Buffer.CharBytes | src/app/api/azure/login/route.ts:29 | one to four UTF-8 bytes per character, one exactly for ASCII |
| Buffer.FromString | src/app/api/azure/login/route.ts:29 | `Buffer.from(text)` has between one and four bytes per character |
| Buffer.DecodeChar | src/app/api/azure/callback/route.ts:127 | a decoded character consumes one to four bytes |
| Buffer.ToString | src/app/api/azure/callback/route.ts:127 | decoding UTF-8 gives no more characters than bytes |
| Buffer.CharRoundTrip | src/app/api/azure/callback/route.ts:127 | decoding the UTF-8 bytes of a character gives it back and consumes exactly its bytes |
| Buffer.ToStringFromString | src/app/api/azure/callback/route.ts:127 | UTF-8 decoding inverts UTF-8 encoding for every text |
| Buffer.ToBase64 | src/app/api/azure/login/route.ts:29 | the base64 form of a text has a length divisible by four |
| Buffer.FromBase64ToBase64 | src/app/api/azure/callback/route.ts:127 | `Buffer.FromBase64` (`Buffer.from(s, 'base64').toString()`) of the state gives back the return path it was made from |
| Cookies.CookieStore.Set | src/app/api/azure/utils.ts:47-53 | `set` adds or replaces exactly the named cookie |
| Cookies.CookieStore.Get | src/app/api/azure/utils.ts:62 | `get` finds the cookie exactly when it is present and changes nothing |
| Cookies.CookieStore.Delete | src/app/api/azure/utils.ts:64 | `delete` removes exactly the named cookie |
| Urls.Keys | src/app/api/azure/login/route.ts:20-32 | the keys of the pairs in order |
| Urls.LookupMeaning | src/app/api/azure/callback/route.ts:108-109 | `searchParams.get` is absent exactly when no pair has the key, and otherwise gives the first such pair's value |
| Urls.LookupFirst | src/app/api/azure/callback/route.ts:108-109 | the value at the first position of a key is what `get` returns |
| Urls.SearchParams.Append | src/app/api/azure/login/route.ts:20-32 | `append` adds the pair at the end, duplicates included |
| AzureUtils.ConfigFromEnvironment | src/app/api/azure/utils.ts:5-10 | client and tenant identifiers come from the environment or are empty; the one scope joins to the empty scope string |
| AzureUtils.CallbackRedirectUri | src/app/api/azure/login/route.ts:11 | the redirect URI is an https URL built from the host header |
| AzureUtils.ToUrlSafe | src/app/api/azure/utils.ts:25-27 | the replace chain leaves no `+`, `/` or `=`, and on unpadded input maps to the url alphabet character by character |
| AzureUtils.PaddingDropped | src/app/api/azure/utils.ts:27 | the `=` padding disappears in the replace chain |
| AzureUtils.UrlAgreesUnique | src/app/api/azure/utils.ts:25-26 | a base64 string has one url-alphabet counterpart |
| AzureUtils.UrlSafeIsBase64Url | src/app/api/azure/utils.ts:36-39 | the replace chain turns padded base64 into unpadded base64url (RFC 4648 section 5) |
| AzureUtils.GenerateCodeVerifier | src/app/api/azure/utils.ts:22-29 | the verifier has exactly `length` characters, all from the unreserved base64url set |
| AzureUtils.VerifierIsBase64UrlPrefix | src/app/api/azure/utils.ts:22-29 | the verifier is a prefix of the base64url encoding of the random bytes |
| AzureUtils.DefaultVerifierLengthInRange | src/app/api/azure/login/route.ts:13 | the default verifier has 64 characters, within the 43 to 128 of RFC 7636 section 4.1 |
| AzureUtils.GenerateCodeChallenge | src/app/api/azure/utils.ts:36-39 | the challenge has 43 url-safe characters |
| AzureUtils.ChallengeIsS256 | src/app/api/azure/utils.ts:36-39 | the challenge is BASE64URL(SHA256(UTF-8 of the verifier)), the S256 method of RFC 7636 section 4.2 |
| AzureUtils.Consume | src/app/api/azure/utils.ts:60-67 | a retrieval deletes the slot only when its value is non-empty and leaves every other cookie as it was |
| AzureUtils.RetrieveTwice | src/app/api/azure/utils.ts:88-95 | a second retrieval of a consumed non-empty value finds nothing; retrieval is idempotent on the store |
| AzureUtils.StoreThenRetrieve | src/app/api/azure/utils.ts:73-95 | a retrieval after a store returns the stored value |
| AzureUtils.SlotsIndependent | src/app/api/azure/utils.ts:13-16 | storing or retrieving one slot leaves the other as it was |
| AzureUtils.StorePkceVerifier | src/app/api/azure/utils.ts:45-54 | writes the verifier cookie: http-only, secure in production, lax, ten minutes, path `/` |
| AzureUtils.RetrievePkceVerifier | src/app/api/azure/utils.ts:60-67 | returns the stored verifier and leaves the store consumed |
| AzureUtils.StoreAuthState | src/app/api/azure/utils.ts:73-82 | writes the state cookie with the same attributes |
| AzureUtils.RetrieveAuthState | src/app/api/azure/utils.ts:88-95 | returns the stored state and leaves the store consumed |
| Login.ReturnUrl | src/app/api/azure/login/route.ts:9 | the return URL is the parameter when non-empty, else `/`, and is never empty |
| Login.StateOf | src/app/api/azure/login/route.ts:29 | the state decodes back to the return URL and is non-empty for a non-empty URL |
| Login.VerifierNotAKey | src/app/api/azure/login/route.ts:20-32 | no authorization parameter is named `code_verifier` |
| Login.AppendRequestParams | src/app/api/azure/login/route.ts:20-27 | the seven appends add the request parameters in order |
| Login.Get | src/app/api/azure/login/route.ts:4-39 | the route's answer and the store after it are those of the route as a function |
| Login.FailureIsServerError | src/app/api/azure/login/route.ts:35-37 | any exception gives the JSON 500 answer; without one the answer is a redirect |
| Login.StoreOrder | src/app/api/azure/login/route.ts:13-31 | the verifier is stored before the state, and a fault before the verifier leaves the store unchanged |
| Login.RedirectShape | src/app/api/azure/login/route.ts:18-34 | the redirect goes to the tenant's authorize endpoint with the route's eight keys, in the order it appends them, and never `code_verifier` |
| Login.EnvironmentAuthorization | src/app/api/azure/login/route.ts:18-23 | with the configuration from the environment, the redirect goes to that tenant's endpoint, names that client, and sends an empty `scope` |
| Login.QueryKeys | src/app/api/azure/login/route.ts:20-32 | the keys of the authorization query, without `code_verifier` |
| Login.QueryLookups | src/app/api/azure/login/route.ts:20-32 | each of the eight parameters of the authorization query reads back as the value appended, including `response_type=code` and `response_mode=query` |
| Login.RedirectCarriesStoredValues | src/app/api/azure/login/route.ts:13-32 | the redirect's state is the stored state, its challenge is that of the stored verifier, and its redirect URI is the callback URI |
| Callback.ErrorNamesDistinct | src/app/api/azure/callback/route.ts:27-141 | the six error codes have distinct names |
| Callback.ValidateRequestParams | src/app/api/azure/callback/route.ts:19-41 | `no_code` iff the code is falsy; `invalid_state` iff a code but the states are missing or differ; `missing_verifier` iff all else holds but no verifier; valid iff all hold |
| Callback.TokenRequestOf | src/app/api/azure/callback/route.ts:43-71 | the token request goes to the tenant's token endpoint, form-encoded, with the six keys in order |
| Callback.TokenRequestCarries | src/app/api/azure/callback/route.ts:51-58 | the body is an authorization-code grant with the code, redirect URI and verifier given, and the secret or `''` |
| Callback.RedirectPath | src/app/api/azure/callback/route.ts:127-131 | the path always starts with `/`: `/` for an empty decoded state, the state itself when it starts with `/`, else `/` prepended |
| Callback.NetworkPathKept | src/app/api/azure/callback/route.ts:127-131 | a decoded path starting with `//` is kept unchanged, so it stays a network-path reference |
| Callback.RedirectPathIdempotent | src/app/api/azure/callback/route.ts:127-131 | normalising a normalised path changes nothing |
| Callback.SessionCookies | src/app/api/azure/callback/route.ts:82-103 | the access token cookie is always set with 45 minutes; the refresh token is set with the same attributes exactly when truthy; nothing else; `expires_in` has no effect |
| Callback.CreateAuthResponse | src/app/api/azure/callback/route.ts:82-103 | the response redirects with exactly the session cookies |
| Callback.ErrorRedirect | src/app/api/azure/callback/route.ts:115 | an error redirect resolves `/?error=` against the request URL and sets no cookie |
| Callback.ErrorRedirectDistinct | src/app/api/azure/callback/route.ts:115-141 | two error redirects for the same request are equal exactly when their error codes are |
| Callback.Get | src/app/api/azure/callback/route.ts:105-143 | the route's answer, token request and store after it are those of the route as a function |
| Callback.InvalidMeansNoExchange | src/app/api/azure/callback/route.ts:113-116 | a request failing validation redirects with its code and sends no token request; a token request is sent exactly when validation passes |
| Callback.ExchangeDecides | src/app/api/azure/callback/route.ts:122-138 | after validation: a failed exchange gives `token_exchange`, no tokens give `token_missing`, tokens give the normalised path of `Callback.DecodedState` (the stored state decoded from base64, or the `lenient` text when it is not well formed) with the session cookies |
| Callback.RedirectReferenceStartsWithSlash | src/app/api/azure/callback/route.ts:113-141 | the reference every redirect of the route resolves, on every fault, starts with `/` |
| Callback.SlotsConsumed | src/app/api/azure/callback/route.ts:110-111 | after the route neither slot holds a non-empty value and every other cookie is unchanged |
| Callback.ReplayRejected | src/app/api/azure/callback/route.ts:110-116 | replaying a callback against the store it left gives `invalid_state` |
| ClientCookies.RenderConcat | src/core/utils.ts:24-40 | the text of a list of attributes is the concatenation of the texts of its parts |
| ClientCookies.AttributeSplits | src/core/utils.ts:26-40 | each attribute is a `;` followed by its field |
| ClientCookies.SetAttributesShape | src/core/utils.ts:16-40 | the attributes of `ClientCookies.SetAttributes` come in fixed order, each at most once; path (default `/`) and SameSite (default `lax`, last) always; `expires`, `domain` and `secure` exactly when asked, the expiry and domain carrying the given text |
| ClientCookies.SetAttributesValues | src/core/utils.ts:26-34 | an `expires` attribute is written with exactly the given expiry, and a `domain` attribute with exactly the given truthy domain |
| ClientCookies.SetCookie | src/core/utils.ts:9-45 | outside a browser nothing changes; otherwise exactly one string is assigned to `document.cookie`: `ClientCookies.SetCookieString`, the encoded pair followed by the attributes |
| ClientCookies.DeleteCookie | src/core/utils.ts:65-77 | outside a browser nothing changes; otherwise one string is assigned: `ClientCookies.DeleteCookieString`, with an empty value, the epoch as expiry, the path, and the domain when truthy |
| ClientCookies.DeleteIsExpiredSet | src/core/utils.ts:65-77 | deleting writes what setting an empty value expiring at the epoch writes, less `; samesite=lax` |
| ClientCookies.RenderIsJoin | src/core/utils.ts:24-40 | a cookie string is its pair and its fields joined by `;` |
| ClientCookies.FieldUnbroken | src/core/utils.ts:26-40 | a field holds no `;` when the text it carries holds none |
| ClientCookies.OptionsUnbroken | src/core/utils.ts:16-22 | options free of `;` give attributes free of `;` |
| ClientCookies.SetCookieFields | src/core/utils.ts:24-42 | splitting the written string at `;` gives the pair and then one field per attribute |
| ClientCookies.FindCookieNone | src/core/utils.ts:55-62 | the search fails exactly when no trimmed entry starts with `name=` |
| ClientCookies.FindCookieSome | src/core/utils.ts:55-60 | a successful search read the first trimmed entry that starts with `name=` |
| ClientCookies.FindCookieFirst | src/core/utils.ts:55-60 | the first matching entry is the one read |
| ClientCookies.GetCookie | src/core/utils.ts:47-63 | outside a browser nothing is found; otherwise the loop returns what the first-match search `ClientCookies.FindCookie` over the split entries gives |
| ClientCookies.ReadBack | src/core/utils.ts:47-63 | a cookie listed as its encoded pair, with no earlier entry for the name, reads back as its value |
| Handshake.LoginLeavesHandshake | src/app/api/azure/login/route.ts:13-31 | a completed login leaves a non-empty state and a non-empty verifier in the store |
| Handshake.ReturnTripLookups | src/app/api/azure/callback/route.ts:108-109 | the callback query gives back the code and the echoed state |
| Handshake.HandshakeSucceeds | src/app/api/azure/callback/route.ts:105-138 | login then callback with the echoed state and a code redirects to the login's return path, normalised, with the session cookies |
| Handshake.ReturnUrlMayLeaveOrigin | src/app/api/azure/callback/route.ts:127-132 | a login return URL starting with `//` comes back unchanged as the success redirect's reference |
| Handshake.HandshakeBindsVerifier | src/app/api/azure/callback/route.ts:120-122 | the token request's verifier has the login redirect's challenge as its S256 challenge; redirect URI and client id match the authorization request, and the callback state is the redirect's `state` (RFC 7636 section 4.6, RFC 6749 section 4.1.3) |
| Handshake.HandshakeSingleUse | src/app/api/azure/callback/route.ts:110-116 | after login and callback both slots are empty, other cookies are as before the login, and a replay gives `invalid_state` |
| Handshake.BothSlotsConsumed | src/app/api/azure/utils.ts:60-95 | retrieving two freshly written non-empty slots removes both and nothing else |

## Left out

- I/O and runtime details:
  - Logging (`console`, `logger`) and the fetch client's 120-second timeout are left out.
  - The serialisation of URLs and form bodies is left out: percent-encoding, `URLSearchParams.toString()`, and the resolution of a reference against a base in `new URL`. A redirect is kept as the pair (base, reference).
- Inputs modelled as parameters:
  - The random bytes, SHA-256, `encodeURIComponent`, `decodeURIComponent` and `Date.prototype.toUTCString` are all parameters, described above.
  - The token endpoint's behaviour is an input, and no HTTP status handling is modelled.
- Buffer.FromBase64: decodes strictly (RFC 4648 section 4, then well-formed UTF-8). Node.js also accepts malformed base64 and invalid UTF-8 by skipping input or substituting U+FFFD. `Callback.DecodedState` takes that lenient result as the `lenient` input, without modelling how it is computed.
- Buffer.FromString: lone UTF-16 surrogates cannot occur. A Dafny `char` is a Unicode scalar value, so the U+FFFD substitution Node.js makes for them is not modelled.
- Browser storage:
  - ClientCookies.SetCookie and ClientCookies.DeleteCookie record the strings assigned to `document.cookie`. How the browser merges an assignment into what later reads of `document.cookie` return is not modelled.
  - `getCookie` reads the `cookie` field as given.
- Next.js cookie store: it is a map from names to a value and options. The `Set-Cookie` headers it produces and browser expiry of the ten- and forty-five-minute cookies are not modelled.
- Exceptions are modelled only at the steps named in `Login.LoginFault` and `Callback.CallbackFault`.
  - An exception anywhere else (for example in `NextResponse.redirect`) is not modelled.
  - `new URL('/?error=…', request.url)` is assumed not to throw, since the request URL is absolute.
- Callback.RedirectReferenceStartsWithSlash: a reference starting with `/` can still start with `//`. `new URL` resolves such a network-path reference (RFC 3986 section 4.2) to the host it names, so a return URL like `//evil.example` given at login sends the browser off the origin. `Callback.NetworkPathKept` and `Handshake.ReturnUrlMayLeaveOrigin` show that such a path is passed through; where it resolves is not modelled, because URL resolution is left out.
- Callback.TokenResponse: `access_token` is always present. The route does not check for it, and what `response.cookies.set` stores for an `undefined` value is decided by Next.js, which is not part of this model.
- AzureConfig.redirectUri: this field of `azureConfig` is always `''` and is never read, so it is not modelled.
- Async: the `await`s in the handlers run in sequence and nothing else touches the store in between. Concurrent requests on the same browser are not modelled.
