/**
  The part of Node.js `Buffer` the handshake uses: `Buffer.from(text)` (UTF-8
  encoding), `buf.toString()` (UTF-8 decoding) and the base64 conversions
  between text and its encoded form. Decoding is strict: it answers None where
  Node.js would substitute replacement characters or skip input.
*/
module Buffer {
  import opened Wrappers
  import opened Base64

  /** The UTF-8 encoding of one Unicode scalar value. */
  function CharBytes(c: char): (b: seq<byte>)
    ensures 1 <= |b| <= 4
    ensures (c as int < 0x80) == (|b| == 1)
  {
    var n := c as int;
    if n < 0x80 then [n]
    else if n < 0x800 then [0xC0 + n / 64, 0x80 + n % 64]
    else if n < 0x10000 then [0xE0 + n / 4096, 0x80 + (n / 64) % 64, 0x80 + n % 64]
    else [0xF0 + n / 262144, 0x80 + (n / 4096) % 64, 0x80 + (n / 64) % 64, 0x80 + n % 64]
  }

  /** `Buffer.from(text)`: the UTF-8 bytes of the text. */
  function FromString(s: string): (b: seq<byte>)
    ensures |s| <= |b| <= 4 * |s|
  {
    if |s| == 0 then [] else CharBytes(s[0]) + FromString(s[1..])
  }

  predicate IsContinuation(b: byte) {
    0x80 <= b < 0xC0
  }

  /** The scalar value at the head of the bytes and the number of bytes it takes, if well-formed. */
  function DecodeChar(b: seq<byte>): (r: Option<(char, nat)>)
    requires |b| > 0
    ensures r.Some? ==> 1 <= r.value.1 <= |b| && r.value.1 <= 4
  {
    var b0 := b[0] as int;
    if b0 < 0x80 then Some((b0 as char, 1))
    else if 0xC0 <= b0 < 0xE0 then
      if |b| < 2 || !IsContinuation(b[1]) then None
      else
        var n := (b0 - 0xC0) * 64 + (b[1] as int - 0x80);
        if n < 0x80 then None else Some((n as char, 2))
    else if 0xE0 <= b0 < 0xF0 then
      if |b| < 3 || !IsContinuation(b[1]) || !IsContinuation(b[2]) then None
      else
        var n := (b0 - 0xE0) * 4096 + (b[1] as int - 0x80) * 64 + (b[2] as int - 0x80);
        if n < 0x800 || 0xD800 <= n < 0xE000 then None else Some((n as char, 3))
    else if 0xF0 <= b0 < 0xF8 then
      if |b| < 4 || !IsContinuation(b[1]) || !IsContinuation(b[2]) || !IsContinuation(b[3]) then None
      else
        var n := (b0 - 0xF0) * 262144 + (b[1] as int - 0x80) * 4096 + (b[2] as int - 0x80) * 64 + (b[3] as int - 0x80);
        if n < 0x10000 || n >= 0x110000 then None else Some((n as char, 4))
    else None
  }

  /** `buf.toString()` on well-formed UTF-8. */
  function ToString(b: seq<byte>): (r: Option<string>)
    ensures r.Some? ==> |r.value| <= |b|
    decreases |b|
  {
    if |b| == 0 then Some("")
    else
      match DecodeChar(b)
      case None => None
      case Some((c, k)) =>
        match ToString(b[k..])
        case None => None
        case Some(rest) => Some([c] + rest)
  }

  lemma TwoByteArith(n: int)
    requires 0x80 <= n < 0x800
    ensures 0xC0 <= 0xC0 + n / 64 < 0xE0 && (n / 64) * 64 + n % 64 == n
  {
  }

  lemma ThreeByteArith(n: int)
    requires 0x800 <= n < 0x10000
    ensures 0xE0 <= 0xE0 + n / 4096 < 0xF0
    ensures (n / 4096) * 4096 + ((n / 64) % 64) * 64 + n % 64 == n
  {
    var q := n / 64;
    assert n == q * 64 + n % 64;
    assert q == (q / 64) * 64 + q % 64;
    assert q / 64 == n / 4096;
  }

  lemma FourByteArith(n: int)
    requires 0x10000 <= n < 0x110000
    ensures 0xF0 <= 0xF0 + n / 262144 < 0xF8
    ensures (n / 262144) * 262144 + ((n / 4096) % 64) * 4096 + ((n / 64) % 64) * 64 + n % 64 == n
  {
    var q := n / 64;
    var r := q / 64;
    assert n == q * 64 + n % 64;
    assert q == r * 64 + q % 64;
    assert r == (r / 64) * 64 + r % 64;
    assert r == n / 4096;
    assert r / 64 == n / 262144;
  }

  lemma CharRoundTrip(c: char, rest: seq<byte>)
    ensures DecodeChar(CharBytes(c) + rest) == Some((c, |CharBytes(c)|))
  {
    var n := c as int;
    var b := CharBytes(c) + rest;
    if n < 0x80 {
    } else if n < 0x800 {
      assert b[0] == 0xC0 + n / 64 && b[1] == 0x80 + n % 64;
      TwoByteArith(n);
    } else if n < 0x10000 {
      assert b[0] == 0xE0 + n / 4096 && b[1] == 0x80 + (n / 64) % 64 && b[2] == 0x80 + n % 64;
      ThreeByteArith(n);
    } else {
      assert b[0] == 0xF0 + n / 262144 && b[1] == 0x80 + (n / 4096) % 64;
      assert b[2] == 0x80 + (n / 64) % 64 && b[3] == 0x80 + n % 64;
      FourByteArith(n);
    }
  }

  /** UTF-8 decoding inverts `Buffer.from(text)`, for every text. */
  lemma {:induction false} ToStringFromString(s: string)
    ensures ToString(FromString(s)) == Some(s)
  {
    if |s| > 0 {
      var head := CharBytes(s[0]);
      var b := FromString(s);
      assert b == head + FromString(s[1..]);
      CharRoundTrip(s[0], FromString(s[1..]));
      assert b[|head|..] == FromString(s[1..]);
      ToStringFromString(s[1..]);
      assert s == [s[0]] + s[1..];
    }
  }

  /** `Buffer.from(text).toString('base64')`. */
  function ToBase64(text: string): (r: string)
    ensures |r| % 4 == 0
  {
    Encode(FromString(text))
  }

  /** `Buffer.from(encoded, 'base64').toString()`, for well-formed input only. */
  function FromBase64(encoded: string): Option<string> {
    match Decode(encoded)
    case None => None
    case Some(bytes) => ToString(bytes)
  }

  /** Decoding the base64 form of any text gives the text back. */
  lemma FromBase64ToBase64(text: string)
    ensures FromBase64(ToBase64(text)) == Some(text)
  {
    DecodeEncode(FromString(text));
    ToStringFromString(text);
  }
}
