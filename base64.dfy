/**
  Base64 with the standard alphabet and `=` padding, as in section 4 of RFC 4648.
  This is what `Buffer.toString('base64')` produces and what
  `Buffer.from(text, 'base64')` reads back for well-formed input.
*/
module Base64 {
  import opened Wrappers

  type byte = b: int | 0 <= b < 256

  /** The character for a 6-bit value: A-Z, a-z, 0-9, '+', '/'. */
  function Digit(v: int): (c: char)
    requires 0 <= v < 64
    ensures InAlphabet(c)
  {
    if v < 26 then (65 + v) as char
    else if v < 52 then (97 + v - 26) as char
    else if v < 62 then (48 + v - 52) as char
    else if v == 62 then '+'
    else '/'
  }

  /** The 6-bit value of an alphabet character, or -1 for any other character. */
  function ValueOf(c: char): (v: int)
    ensures -1 <= v < 64
    ensures v == -1 <==> !InAlphabet(c)
  {
    if 'A' <= c <= 'Z' then c as int - 65
    else if 'a' <= c <= 'z' then c as int - 97 + 26
    else if '0' <= c <= '9' then c as int - 48 + 52
    else if c == '+' then 62
    else if c == '/' then 63
    else -1
  }

  predicate InAlphabet(c: char) {
    'A' <= c <= 'Z' || 'a' <= c <= 'z' || '0' <= c <= '9' || c == '+' || c == '/'
  }

  /** Digit and ValueOf are inverse on the 64 values. */
  lemma DigitValue(v: int)
    requires 0 <= v < 64
    ensures ValueOf(Digit(v)) == v
  {
  }

  /** Number of characters of the encoding of n bytes without padding: ceil(4n/3). */
  function UnpaddedLength(n: nat): nat {
    (4 * n + 2) / 3
  }

  /** Number of `=` characters that pad the encoding of n bytes to a multiple of four. */
  function PaddingLength(n: nat): nat {
    (3 - n % 3) % 3
  }

  /** The four characters for three bytes. */
  function EncodeTriple(a: byte, b: byte, c: byte): string {
    [Digit(a / 4), Digit((a % 4) * 16 + b / 16), Digit((b % 16) * 4 + c / 64), Digit(c % 64)]
  }

  /** The encoding without its padding: every character is in the alphabet. */
  function EncodeUnpadded(s: seq<byte>): (r: string)
    ensures |r| == UnpaddedLength(|s|)
    ensures forall i :: 0 <= i < |r| ==> InAlphabet(r[i])
  {
    if |s| == 0 then []
    else if |s| == 1 then [Digit(s[0] / 4), Digit((s[0] % 4) * 16)]
    else if |s| == 2 then [Digit(s[0] / 4), Digit((s[0] % 4) * 16 + s[1] / 16), Digit((s[1] % 16) * 4)]
    else EncodeTriple(s[0], s[1], s[2]) + EncodeUnpadded(s[3..])
  }

  /** Padding completes the unpadded encoding to whole groups of four characters. */
  lemma PaddedLength(n: nat)
    ensures UnpaddedLength(n) + PaddingLength(n) == 4 * ((n + 2) / 3)
    ensures (UnpaddedLength(n) + PaddingLength(n)) % 4 == 0
  {
    var k, m := n / 3, n % 3;
    assert n == 3 * k + m;
    if m == 0 {
      assert (4 * n + 2) / 3 == 4 * k;
    } else if m == 1 {
      assert (4 * n + 2) / 3 == 4 * k + 2;
    } else {
      assert (4 * n + 2) / 3 == 4 * k + 3;
    }
  }

  /** Base64 encoding with padding, as `Buffer.toString('base64')` emits it. */
  function Encode(s: seq<byte>): (r: string)
    ensures |r| == UnpaddedLength(|s|) + PaddingLength(|s|)
    ensures |r| % 4 == 0
  {
    PaddedLength(|s|);
    EncodeUnpadded(s) + seq(PaddingLength(|s|), _ => '=')
  }

  /** The three bytes of a group of four alphabet characters. */
  function DecodeQuad(c0: char, c1: char, c2: char, c3: char): Option<seq<byte>> {
    var v0, v1, v2, v3 := ValueOf(c0), ValueOf(c1), ValueOf(c2), ValueOf(c3);
    if v0 < 0 || v1 < 0 || v2 < 0 || v3 < 0 then None
    else Some([v0 * 4 + v1 / 16, (v1 % 16) * 16 + v2 / 4, (v2 % 4) * 64 + v3])
  }

  /** The last group of four characters, which may end in one or two `=`. */
  function DecodeFinal(c0: char, c1: char, c2: char, c3: char): Option<seq<byte>> {
    var v0, v1, v2 := ValueOf(c0), ValueOf(c1), ValueOf(c2);
    if c2 == '=' && c3 == '=' then
      if v0 < 0 || v1 < 0 then None else Some([v0 * 4 + v1 / 16])
    else if c3 == '=' then
      if v0 < 0 || v1 < 0 || v2 < 0 then None
      else Some([v0 * 4 + v1 / 16, (v1 % 16) * 16 + v2 / 4])
    else DecodeQuad(c0, c1, c2, c3)
  }

  /**
    Strict decoding of a well-formed encoding: groups of four alphabet characters,
    the last of which may be padded. Unused low bits before the padding are
    ignored, as Node.js does. Anything else is None.
  */
  function Decode(s: string): (r: Option<seq<byte>>)
    ensures r.Some? ==> |s| % 4 == 0
    decreases |s|
  {
    if |s| == 0 then Some([])
    else if |s| < 4 then None
    else if |s| == 4 then DecodeFinal(s[0], s[1], s[2], s[3])
    else
      match DecodeQuad(s[0], s[1], s[2], s[3])
      case None => None
      case Some(head) =>
        match Decode(s[4..])
        case None => None
        case Some(tail) => Some(head + tail)
  }

  /** The bit regrouping of three bytes into four 6-bit values, undone. */
  lemma Regroup(a: byte, b: byte, c: byte)
    ensures ((a % 4) * 16 + b / 16) / 16 == a % 4 && ((a % 4) * 16 + b / 16) % 16 == b / 16
    ensures ((b % 16) * 4 + c / 64) / 4 == b % 16 && ((b % 16) * 4 + c / 64) % 4 == c / 64
    ensures (a / 4) * 4 + a % 4 == a && (b / 16) * 16 + b % 16 == b && (c / 64) * 64 + c % 64 == c
  {
  }

  lemma TripleRoundTrip(a: byte, b: byte, c: byte)
    ensures var t := EncodeTriple(a, b, c); DecodeQuad(t[0], t[1], t[2], t[3]) == Some([a, b, c])
  {
    var v0, v1, v2, v3 := a / 4, (a % 4) * 16 + b / 16, (b % 16) * 4 + c / 64, c % 64;
    DigitValue(v0);
    DigitValue(v1);
    DigitValue(v2);
    DigitValue(v3);
    Regroup(a, b, c);
    assert v0 * 4 + v1 / 16 == a;
    assert (v1 % 16) * 16 + v2 / 4 == b;
    assert (v2 % 4) * 64 + v3 == c;
  }

  lemma OneByteRoundTrip(a: byte)
    ensures Decode(Encode([a])) == Some([a])
  {
    var e := Encode([a]);
    assert e == [Digit(a / 4), Digit((a % 4) * 16), '=', '='];
    DigitValue(a / 4);
    DigitValue((a % 4) * 16);
    Regroup(a, 0, 0);
    assert DecodeFinal(e[0], e[1], e[2], e[3]) == Some([a]);
  }

  lemma TwoBytesRoundTrip(a: byte, b: byte)
    ensures Decode(Encode([a, b])) == Some([a, b])
  {
    var e := Encode([a, b]);
    assert e == [Digit(a / 4), Digit((a % 4) * 16 + b / 16), Digit((b % 16) * 4), '='];
    DigitValue(a / 4);
    DigitValue((a % 4) * 16 + b / 16);
    DigitValue((b % 16) * 4);
    Regroup(a, b, 0);
    assert DecodeFinal(e[0], e[1], e[2], e[3]) == Some([a, b]);
  }

  lemma EncodeStep(s: seq<byte>)
    requires |s| >= 3
    ensures Encode(s) == EncodeTriple(s[0], s[1], s[2]) + Encode(s[3..])
  {
    var pad := seq(PaddingLength(|s|), _ => '=');
    assert PaddingLength(|s|) == PaddingLength(|s| - 3);
    assert Encode(s[3..]) == EncodeUnpadded(s[3..]) + pad;
    assert EncodeUnpadded(s) == EncodeTriple(s[0], s[1], s[2]) + EncodeUnpadded(s[3..]);
    assert Encode(s) == EncodeTriple(s[0], s[1], s[2]) + EncodeUnpadded(s[3..]) + pad;
  }

  lemma DecodeStep(t: string, rest: string)
    requires |t| == 4 && InAlphabet(t[2]) && InAlphabet(t[3])
    ensures Decode(t + rest) ==
      match DecodeQuad(t[0], t[1], t[2], t[3])
      case None => None
      case Some(head) => (match Decode(rest) case None => None case Some(tail) => Some(head + tail))
  {
    var u := t + rest;
    assert u[..4] == t;
    assert u[4..] == rest;
    if rest == [] {
      assert u == t;
      assert t[2] != '=' && t[3] != '=';
      assert DecodeFinal(t[0], t[1], t[2], t[3]) == DecodeQuad(t[0], t[1], t[2], t[3]);
      match DecodeQuad(t[0], t[1], t[2], t[3])
      case None =>
      case Some(head) => assert head + [] == head;
    }
  }

  /** Decoding inverts encoding, for every byte sequence. */
  lemma {:induction false} DecodeEncode(s: seq<byte>)
    ensures Decode(Encode(s)) == Some(s)
    decreases |s|
  {
    if |s| == 0 {
    } else if |s| == 1 {
      assert s == [s[0]];
      OneByteRoundTrip(s[0]);
    } else if |s| == 2 {
      assert s == [s[0], s[1]];
      TwoBytesRoundTrip(s[0], s[1]);
    } else {
      var t := EncodeTriple(s[0], s[1], s[2]);
      assert s == [s[0], s[1], s[2]] + s[3..] by {
        assert s[..3] == [s[0], s[1], s[2]];
        assert s == s[..3] + s[3..];
      }
      EncodeStep(s);
      TripleRoundTrip(s[0], s[1], s[2]);
      DecodeEncode(s[3..]);
      DecodeStep(t, Encode(s[3..]));
    }
  }

  /** The URL- and filename-safe alphabet of section 5 of RFC 4648: A-Z, a-z, 0-9, '-', '_'. */
  predicate IsUrlSafeChar(c: char) {
    'A' <= c <= 'Z' || 'a' <= c <= 'z' || '0' <= c <= '9' || c == '-' || c == '_'
  }

  /** How section 5 of RFC 4648 relates the two alphabets: only values 62 and 63 differ. */
  function ToUrlAlphabet(c: char): char {
    if c == '+' then '-' else if c == '/' then '_' else c
  }

  /** The character for a 6-bit value in the URL- and filename-safe alphabet. */
  function UrlDigit(v: int): (c: char)
    requires 0 <= v < 64
    ensures IsUrlSafeChar(c)
    ensures v < 62 ==> c == Digit(v)
    ensures v == 62 ==> c == '-'
    ensures v == 63 ==> c == '_'
  {
    ToUrlAlphabet(Digit(v))
  }

  /** The four base64url characters for three bytes. */
  function UrlTriple(a: byte, b: byte, c: byte): string {
    [UrlDigit(a / 4), UrlDigit((a % 4) * 16 + b / 16), UrlDigit((b % 16) * 4 + c / 64), UrlDigit(c % 64)]
  }

  /** The base64url encoding of section 5 of RFC 4648 with the padding left off. */
  function EncodeUrlUnpadded(s: seq<byte>): (r: string)
    ensures |r| == UnpaddedLength(|s|)
    ensures forall i :: 0 <= i < |r| ==> IsUrlSafeChar(r[i])
  {
    if |s| == 0 then []
    else if |s| == 1 then [UrlDigit(s[0] / 4), UrlDigit((s[0] % 4) * 16)]
    else if |s| == 2 then [UrlDigit(s[0] / 4), UrlDigit((s[0] % 4) * 16 + s[1] / 16), UrlDigit((s[1] % 16) * 4)]
    else UrlTriple(s[0], s[1], s[2]) + EncodeUrlUnpadded(s[3..])
  }

  /** `u` is `e` with the alphabet changed, character by character. */
  predicate UrlAgrees(u: string, e: string) {
    |u| == |e| && forall i :: 0 <= i < |e| ==> u[i] == ToUrlAlphabet(e[i])
  }

  lemma UrlAgreesConcat(u1: string, e1: string, u2: string, e2: string)
    requires UrlAgrees(u1, e1) && UrlAgrees(u2, e2)
    ensures UrlAgrees(u1 + u2, e1 + e2)
  {
    forall i | 0 <= i < |e1 + e2|
      ensures (u1 + u2)[i] == ToUrlAlphabet((e1 + e2)[i])
    {
      if i >= |e1| {
        assert (u1 + u2)[i] == u2[i - |e1|] && (e1 + e2)[i] == e2[i - |e1|];
      }
    }
  }

  lemma TripleAgrees(a: byte, b: byte, c: byte)
    ensures UrlAgrees(UrlTriple(a, b, c), EncodeTriple(a, b, c))
  {
  }

  /** Agreement on the bytes after the first three extends to the whole input. */
  lemma UrlAgreesStep(s: seq<byte>)
    requires |s| >= 3
    requires UrlAgrees(EncodeUrlUnpadded(s[3..]), EncodeUnpadded(s[3..]))
    ensures UrlAgrees(EncodeUrlUnpadded(s), EncodeUnpadded(s))
  {
    TripleAgrees(s[0], s[1], s[2]);
    UrlAgreesConcat(UrlTriple(s[0], s[1], s[2]), EncodeTriple(s[0], s[1], s[2]), EncodeUrlUnpadded(s[3..]), EncodeUnpadded(s[3..]));
  }

  /** The two encodings agree character by character up to the alphabet change. */
  lemma {:induction false} UrlEncodingAgrees(s: seq<byte>)
    ensures UrlAgrees(EncodeUrlUnpadded(s), EncodeUnpadded(s))
    decreases |s|
  {
    if |s| >= 3 {
      UrlEncodingAgrees(s[3..]);
      UrlAgreesStep(s);
    }
  }
}
