/**
  The browser-side cookie helpers: `setCookie`, `getCookie` and
  `deleteCookie` build or read the text of `document.cookie`. Outside a
  browser (no `window`) they do nothing and `getCookie` finds nothing.
*/
module ClientCookies {
  import opened Wrappers
  import opened Strings
  import Cookies

  type SameSite = Cookies.SameSite

  /**
    The browser's `document`. Reading `document.cookie` gives `cookie`; every
    string assigned to it is recorded in `assignments`, in order. How the browser
    folds an assignment into what later reads return is not modelled.
  */
  class Document {
    var cookie: string
    var assignments: seq<string>

    constructor (cookie: string)
      ensures this.cookie == cookie && assignments == []
    {
      this.cookie := cookie;
      assignments := [];
    }
  }

  /** The text of a SameSite policy in a cookie string. */
  function SameSiteText(s: SameSite): string {
    match s
    case Strict => "strict"
    case Lax => "lax"
    case NoRestriction => "none"
  }

  /**
    The options of `setCookie`; every field may be left out. `expires` holds
    the `toUTCString()` text of the date.
  */
  datatype CookieOptions = CookieOptions(expires: Option<string>, path: Option<string>, domain: Option<string>,
                                         secure: Option<bool>, sameSite: Option<SameSite>)

  /** One attribute of a cookie string. */
  datatype Attribute = Expires(utc: string) | Path(path: string) | Domain(domain: string) | Secure | SameSiteIs(policy: SameSite)

  /** An attribute as it appears in a cookie string, introduced by `;`. */
  function AttributeText(a: Attribute): string {
    match a
    case Expires(utc) => "; expires=" + utc
    case Path(path) => "; path=" + path
    case Domain(domain) => "; domain=" + domain
    case Secure => "; secure"
    case SameSiteIs(policy) => "; samesite=" + SameSiteText(policy)
  }

  /** The text of an attribute after its `;` separator. */
  function Field(a: Attribute): string {
    match a
    case Expires(utc) => " expires=" + utc
    case Path(path) => " path=" + path
    case Domain(domain) => " domain=" + domain
    case Secure => " secure"
    case SameSiteIs(policy) => " samesite=" + SameSiteText(policy)
  }

  /** The text of an attribute is its field behind the `;` separator. */
  lemma AttributeSplits(a: Attribute)
    ensures AttributeText(a) == ";" + Field(a)
  {
    match a
    case Expires(utc) => SeparatorInFront("; expires=", utc);
    case Path(path) => SeparatorInFront("; path=", path);
    case Domain(domain) => SeparatorInFront("; domain=", domain);
    case Secure => SeparatorInFront("; secure", "");
    case SameSiteIs(policy) => SeparatorInFront("; samesite=", SameSiteText(policy));
  }

  /** A prefix starting with `;` followed by a value is `;` followed by the rest of the prefix and the value. */
  lemma SeparatorInFront(prefix: string, value: string)
    requires |prefix| > 0 && prefix[0] == ';'
    ensures prefix + value == ";" + (prefix[1..] + value)
  {
    assert prefix == ";" + prefix[1..];
  }

  /** The attributes, in order. */
  function Render(attrs: seq<Attribute>): string {
    if |attrs| == 0 then "" else AttributeText(attrs[0]) + Render(attrs[1..])
  }

  /** Appending the text of an attribute to a cookie string appends the attribute. */
  lemma AppendAttribute(head: string, attrs: seq<Attribute>, a: Attribute)
    ensures head + Render(attrs) + AttributeText(a) == head + Render(attrs + [a])
  {
    RenderSnoc(attrs, a);
  }

  /** Appending one attribute appends its text. */
  lemma RenderSnoc(attrs: seq<Attribute>, a: Attribute)
    ensures Render(attrs + [a]) == Render(attrs) + AttributeText(a)
  {
    RenderConcat(attrs, [a]);
    assert Render([a]) == AttributeText(a) + Render([]);
  }

  lemma {:induction false} RenderConcat(a: seq<Attribute>, b: seq<Attribute>)
    ensures Render(a + b) == Render(a) + Render(b)
  {
    if |a| > 0 {
      assert (a + b)[0] == a[0];
      assert (a + b)[1..] == a[1..] + b;
      RenderConcat(a[1..], b);
      assert AttributeText(a[0]) + (Render(a[1..]) + Render(b)) == (AttributeText(a[0]) + Render(a[1..])) + Render(b);
    } else {
      assert a + b == b;
    }
  }

  /** Position of each kind of attribute in a cookie string built by these helpers. */
  function Rank(a: Attribute): nat {
    match a
    case Expires(_) => 0
    case Path(_) => 1
    case Domain(_) => 2
    case Secure => 3
    case SameSiteIs(_) => 4
  }

  /** The attribute list of a condition that may leave it out. */
  function When(present: bool, a: Attribute): seq<Attribute> {
    if present then [a] else []
  }

  /**
    The attributes `setCookie` writes: `expires` when given, the path
    (default `/`), the domain when truthy, `secure` when true, and the
    SameSite policy (default `lax`).
  */
  function SetAttributes(options: CookieOptions): seq<Attribute> {
    When(options.expires.Some?, Expires(options.expires.GetOr(""))) + [Path(options.path.GetOr("/"))]
      + When(Truthy(options.domain), Domain(options.domain.GetOr(""))) + When(options.secure == Some(true), Secure)
      + [SameSiteIs(options.sameSite.GetOr(Cookies.Lax))]
  }

  /**
    The attributes come in a fixed order, each at most once; the path and
    the SameSite policy are always there and the policy comes last; the
    other three are there exactly when their option asks for them, and the
    expiry and the domain carry the text given in the options.
  */
  lemma SetAttributesShape(options: CookieOptions)
    ensures var attrs := SetAttributes(options);
      && (forall i, j :: 0 <= i < j < |attrs| ==> Rank(attrs[i]) < Rank(attrs[j]))
      && Path(options.path.GetOr("/")) in attrs
      && attrs[|attrs| - 1] == SameSiteIs(options.sameSite.GetOr(Cookies.Lax))
      && ((exists utc :: Expires(utc) in attrs) <==> options.expires.Some?)
      && ((exists d :: Domain(d) in attrs) <==> Truthy(options.domain))
      && (Secure in attrs <==> options.secure == Some(true))
      && (forall utc :: Expires(utc) in attrs <==> options.expires == Some(utc))
      && (forall d :: Domain(d) in attrs <==> Truthy(options.domain) && options.domain == Some(d))
  {
    var attrs := SetAttributes(options);
    if options.expires.Some? {
      assert attrs[0] == Expires(options.expires.value);
    }
    if Truthy(options.domain) {
      assert attrs[|When(options.expires.Some?, Expires(options.expires.GetOr("")))| + 1] == Domain(options.domain.value);
    }
    SetAttributesValues(options);
  }

  /** The expiry and the domain written are exactly those of the options. */
  lemma SetAttributesValues(options: CookieOptions)
    ensures var attrs := SetAttributes(options);
      && (forall utc :: Expires(utc) in attrs <==> options.expires == Some(utc))
      && (forall d :: Domain(d) in attrs <==> Truthy(options.domain) && options.domain == Some(d))
  {
    var expires := When(options.expires.Some?, Expires(options.expires.GetOr("")));
    var domain := When(Truthy(options.domain), Domain(options.domain.GetOr("")));
    var rest := [Path(options.path.GetOr("/"))] + domain + When(options.secure == Some(true), Secure)
                + [SameSiteIs(options.sameSite.GetOr(Cookies.Lax))];
    assert SetAttributes(options) == expires + rest;
    assert forall utc :: Expires(utc) !in rest;
    var front := expires + [Path(options.path.GetOr("/"))];
    var back := When(options.secure == Some(true), Secure) + [SameSiteIs(options.sameSite.GetOr(Cookies.Lax))];
    assert SetAttributes(options) == front + domain + back;
    assert forall d :: Domain(d) !in front && Domain(d) !in back;
  }

  /** The string `setCookie(name, value, options)` assigns to `document.cookie`; `encode` stands for `encodeURIComponent`. */
  function SetCookieString(encode: string -> string, name: string, value: string, options: CookieOptions): string {
    encode(name) + "=" + encode(value) + Render(SetAttributes(options))
  }

  /** `setCookie(name, value, options)`: builds the cookie string piece by piece and assigns it. */
  method SetCookie(document: Document?, encode: string -> string, name: string, value: string, options: CookieOptions)
    modifies document
    ensures document != null ==>
              && document.assignments == old(document.assignments) + [SetCookieString(encode, name, value, options)]
              && document.cookie == old(document.cookie)
  {
    if document == null {
      return;
    }
    var path := options.path.GetOr("/");
    var secure := options.secure.GetOr(false);
    var sameSite := options.sameSite.GetOr(Cookies.Lax);

    var cookieString := encode(name) + "=" + encode(value);
    ghost var head := cookieString;
    ghost var written := When(options.expires.Some?, Expires(options.expires.GetOr("")));
    if options.expires.Some? {
      AppendAttribute(head, [], Expires(options.expires.value));
      cookieString := cookieString + ("; expires=" + options.expires.value);
      assert cookieString == head + Render([] + [Expires(options.expires.value)]);
    } else {
      assert head + Render([]) == head;
    }
    assert cookieString == head + Render(written);

    AppendAttribute(head, written, Path(path));
    cookieString := cookieString + ("; path=" + path);
    written := written + [Path(path)];
    assert cookieString == head + Render(written);

    ghost var domainAttr := When(Truthy(options.domain), Domain(options.domain.GetOr("")));
    if Truthy(options.domain) {
      AppendAttribute(head, written, Domain(options.domain.value));
      cookieString := cookieString + ("; domain=" + options.domain.value);
    }
    written := written + domainAttr;
    assert cookieString == head + Render(written);

    ghost var secureAttr := When(secure, Secure);
    if secure {
      AppendAttribute(head, written, Secure);
      cookieString := cookieString + "; secure";
      assert cookieString == head + Render(written + [Secure]);
    } else {
      assert written + secureAttr == written;
    }
    written := written + secureAttr;
    assert cookieString == head + Render(written);

    AppendAttribute(head, written, SameSiteIs(sameSite));
    cookieString := cookieString + ("; samesite=" + SameSiteText(sameSite));
    written := written + [SameSiteIs(sameSite)];
    assert cookieString == head + Render(written);
    assert written == SetAttributes(options);

    document.assignments := document.assignments + [cookieString];
  }

  /** The date `deleteCookie` writes: the epoch. */
  const EpochUtc := "Thu, 01 Jan 1970 00:00:00 UTC"

  /** The attributes `deleteCookie` writes: the epoch as expiry, the path (default `/`) and the domain when truthy. */
  function DeleteAttributes(path: Option<string>, domain: Option<string>): seq<Attribute> {
    [Expires(EpochUtc), Path(path.GetOr("/"))] + When(Truthy(domain), Domain(domain.GetOr("")))
  }

  /** The string `deleteCookie(name, path, domain)` assigns to `document.cookie`. */
  function DeleteCookieString(encode: string -> string, name: string, path: Option<string>, domain: Option<string>): string {
    encode(name) + "=" + Render(DeleteAttributes(path, domain))
  }

  /** `deleteCookie(name, path, domain)`: an empty value that expired at the epoch. */
  method DeleteCookie(document: Document?, encode: string -> string, name: string, path: Option<string>, domain: Option<string>)
    modifies document
    ensures document != null ==>
              && document.assignments == old(document.assignments) + [DeleteCookieString(encode, name, path, domain)]
              && document.cookie == old(document.cookie)
  {
    if document == null {
      return;
    }
    var cookieString := encode(name) + "=" + ("; expires=" + EpochUtc) + ("; path=" + path.GetOr("/"));
    ghost var head := encode(name) + "=";
    AppendAttribute(head, [], Expires(EpochUtc));
    assert head + Render([]) == head;
    assert [] + [Expires(EpochUtc)] == [Expires(EpochUtc)];
    AppendAttribute(head, [Expires(EpochUtc)], Path(path.GetOr("/")));
    assert cookieString == head + Render([Expires(EpochUtc), Path(path.GetOr("/"))]);
    if Truthy(domain) {
      AppendAttribute(head, [Expires(EpochUtc), Path(path.GetOr("/"))], Domain(domain.value));
      cookieString := cookieString + ("; domain=" + domain.value);
    } else {
      assert DeleteAttributes(path, domain) == [Expires(EpochUtc), Path(path.GetOr("/"))];
    }
    document.assignments := document.assignments + [cookieString];
  }

  /**
    Deleting writes what setting an empty value with the epoch as expiry
    writes, less the trailing `samesite=lax` that `setCookie` always adds.
  */
  lemma DeleteIsExpiredSet(encode: string -> string, name: string, path: Option<string>, domain: Option<string>)
    requires encode("") == ""
    ensures SetCookieString(encode, name, "", CookieOptions(Some(EpochUtc), path, domain, None, None))
              == DeleteCookieString(encode, name, path, domain) + "; samesite=lax"
  {
    var options := CookieOptions(Some(EpochUtc), path, domain, None, None);
    var head := encode(name) + "=";
    assert head + encode("") == head;
    assert SetAttributes(options) == DeleteAttributes(path, domain) + [SameSiteIs(Cookies.Lax)];
    AppendAttribute(head, DeleteAttributes(path, domain), SameSiteIs(Cookies.Lax));
    assert AttributeText(SameSiteIs(Cookies.Lax)) == "; samesite=lax";
  }

  // ---------------------------------------------------------------------------
  // The cookie string as the browser splits it

  /** The `;`-separated fields of a cookie string: the `name=value` pair, then one per attribute. */
  function Fields(attrs: seq<Attribute>): (fs: seq<string>)
    ensures |fs| == |attrs|
    ensures forall i :: 0 <= i < |attrs| ==> fs[i] == Field(attrs[i])
  {
    if |attrs| == 0 then [] else [Field(attrs[0])] + Fields(attrs[1..])
  }

  lemma {:induction false} RenderIsJoin(first: string, attrs: seq<Attribute>)
    ensures first + Render(attrs) == Join([first] + Fields(attrs), ";")
    decreases |attrs|
  {
    if |attrs| > 0 {
      AttributeSplits(attrs[0]);
      RenderIsJoin(Field(attrs[0]), attrs[1..]);
      assert ([first] + Fields(attrs))[1..] == [Field(attrs[0])] + Fields(attrs[1..]);
    }
  }

  /** The text an attribute carries holds no `;`. */
  predicate Unbroken(a: Attribute) {
    match a
    case Expires(utc) => ';' !in utc
    case Path(path) => ';' !in path
    case Domain(domain) => ';' !in domain
    case _ => true
  }

  /** Only the separator in front of an attribute is a `;`. */
  lemma FieldUnbroken(a: Attribute)
    requires Unbroken(a)
    ensures ';' !in Field(a)
  {
  }

  lemma OptionsUnbroken(options: CookieOptions, a: Attribute)
    requires options.expires.Some? ==> ';' !in options.expires.value
    requires options.path.Some? ==> ';' !in options.path.value
    requires options.domain.Some? ==> ';' !in options.domain.value
    requires a in SetAttributes(options)
    ensures Unbroken(a)
  {
    var expires := When(options.expires.Some?, Expires(options.expires.GetOr("")));
    var domain := When(Truthy(options.domain), Domain(options.domain.GetOr("")));
    var secure := When(options.secure == Some(true), Secure);
    assert a in expires || a == Path(options.path.GetOr("/")) || a in domain || a in secure
        || a == SameSiteIs(options.sameSite.GetOr(Cookies.Lax));
  }

  /**
    When neither the encoded name and value nor any text the options carry
    holds a `;`, splitting the string `setCookie` writes at `;` gives back
    the `name=value` pair followed by one field per attribute, in order.
  */
  lemma SetCookieFields(encode: string -> string, name: string, value: string, options: CookieOptions)
    requires ';' !in encode(name) && ';' !in encode(value)
    requires options.expires.Some? ==> ';' !in options.expires.value
    requires options.path.Some? ==> ';' !in options.path.value
    requires options.domain.Some? ==> ';' !in options.domain.value
    ensures Split(SetCookieString(encode, name, value, options), ';')
              == [encode(name) + "=" + encode(value)] + Fields(SetAttributes(options))
  {
    var attrs := SetAttributes(options);
    var parts := [encode(name) + "=" + encode(value)] + Fields(attrs);
    RenderIsJoin(encode(name) + "=" + encode(value), attrs);
    forall i | 0 <= i < |parts|
      ensures ';' !in parts[i]
    {
      if i > 0 {
        assert attrs[i - 1] in attrs;
        OptionsUnbroken(options, attrs[i - 1]);
        FieldUnbroken(attrs[i - 1]);
      }
    }
    SplitJoin(parts, ';');
  }

  // ---------------------------------------------------------------------------
  // Reading

  /** `cookie.trim().indexOf(nameEQ) === 0`: the trimmed entry starts with nameEQ. */
  predicate Matches(entry: string, nameEQ: string) {
    StartsWith(Trim(entry), nameEQ)
  }

  /** The remainder after `nameEQ` of the first entry that, trimmed, starts with it. */
  function FindCookie(entries: seq<string>, nameEQ: string): Option<string> {
    if |entries| == 0 then None
    else if Matches(entries[0], nameEQ) then Some(Trim(entries[0])[|nameEQ|..])
    else FindCookie(entries[1..], nameEQ)
  }

  /** Entry i is the first that matches. */
  predicate IsFirstMatch(entries: seq<string>, nameEQ: string, i: int) {
    && 0 <= i < |entries| && Matches(entries[i], nameEQ)
    && forall j :: 0 <= j < i ==> !Matches(entries[j], nameEQ)
  }

  /** The search fails exactly when no entry matches. */
  lemma {:induction false} FindCookieNone(entries: seq<string>, nameEQ: string)
    ensures FindCookie(entries, nameEQ).None? <==> forall i :: 0 <= i < |entries| ==> !Matches(entries[i], nameEQ)
  {
    if |entries| > 0 && !Matches(entries[0], nameEQ) {
      FindCookieNone(entries[1..], nameEQ);
      assert forall i :: 0 < i < |entries| ==> entries[i] == entries[1..][i - 1];
    }
  }

  /** A successful search read the first matching entry. */
  lemma {:induction false} FindCookieSome(entries: seq<string>, nameEQ: string)
    requires FindCookie(entries, nameEQ).Some?
    ensures exists i :: IsFirstMatch(entries, nameEQ, i) && FindCookie(entries, nameEQ).value == Trim(entries[i])[|nameEQ|..]
  {
    if Matches(entries[0], nameEQ) {
      assert IsFirstMatch(entries, nameEQ, 0);
    } else {
      FindCookieSome(entries[1..], nameEQ);
      var i :| IsFirstMatch(entries[1..], nameEQ, i) && FindCookie(entries[1..], nameEQ).value == Trim(entries[1..][i])[|nameEQ|..];
      assert IsFirstMatch(entries, nameEQ, i + 1);
    }
  }

  lemma {:induction false} FindCookieFirst(entries: seq<string>, nameEQ: string, i: int)
    requires IsFirstMatch(entries, nameEQ, i)
    ensures FindCookie(entries, nameEQ) == Some(Trim(entries[i])[|nameEQ|..])
  {
    if i > 0 {
      assert IsFirstMatch(entries[1..], nameEQ, i - 1);
      FindCookieFirst(entries[1..], nameEQ, i - 1);
    }
  }

  /** What `getCookie` gives: nothing, the decoded value, or the `URIError` of a malformed escape. */
  datatype CookieRead = NotFound | Found(value: string) | MalformedEscape

  /**
    `getCookie(name)` on the text of `document.cookie`; `decode` stands for
    `decodeURIComponent`, None when it throws.
  */
  function GetCookieOf(encode: string -> string, decode: string -> Option<string>, cookie: string, name: string): CookieRead {
    match FindCookie(Split(cookie, ';'), encode(name) + "=")
    case None => NotFound
    case Some(raw) => if decode(raw).Some? then Found(decode(raw).value) else MalformedEscape
  }

  /** `getCookie(name)`: scans the entries in order and stops at the first match. */
  method GetCookie(document: Document?, encode: string -> string, decode: string -> Option<string>, name: string)
    returns (r: CookieRead)
    ensures document == null ==> r == NotFound
    ensures document != null ==> r == GetCookieOf(encode, decode, document.cookie, name)
  {
    if document == null {
      return NotFound;
    }
    var nameEQ := encode(name) + "=";
    var cookies := Split(document.cookie, ';');
    var i := 0;
    while i < |cookies|
      invariant 0 <= i <= |cookies|
      invariant FindCookie(cookies[i..], nameEQ) == FindCookie(cookies, nameEQ)
    {
      var cookie := Trim(cookies[i]);
      IndexOfZero(cookie, nameEQ);
      if IndexOf(cookie, nameEQ) == 0 {
        var decoded := decode(cookie[|nameEQ|..]);
        return if decoded.Some? then Found(decoded.value) else MalformedEscape;
      }
      assert cookies[i..][1..] == cookies[i + 1..];
      i := i + 1;
    }
    return NotFound;
  }

  /**
    Reading back: when `document.cookie` lists its entries separated by `;`
    and entry k, trimmed, is the encoded pair of `name` and `value` while no
    earlier entry starts with the encoded name and `=`, `getCookie(name)`
    gives the value, provided decoding undoes encoding.
  */
  lemma ReadBack(encode: string -> string, decode: string -> Option<string>, entries: seq<string>, k: int,
                 name: string, value: string)
    requires 0 <= k < |entries|
    requires forall i :: 0 <= i < |entries| ==> ';' !in entries[i]
    requires Trim(entries[k]) == encode(name) + "=" + encode(value)
    requires forall j :: 0 <= j < k ==> !Matches(entries[j], encode(name) + "=")
    requires decode(encode(value)) == Some(value)
    ensures GetCookieOf(encode, decode, Join(entries, ";"), name) == Found(value)
  {
    var nameEQ := encode(name) + "=";
    SplitJoin(entries, ';');
    assert Trim(entries[k])[..|nameEQ|] == nameEQ;
    assert IsFirstMatch(entries, nameEQ, k);
    FindCookieFirst(entries, nameEQ, k);
    assert Trim(entries[k])[|nameEQ|..] == encode(value);
  }
}
