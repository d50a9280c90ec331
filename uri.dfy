/**
 * `encodeURIComponent` as the client applies it to a search query, and the
 * percent-decoding (with `+` read as a space) that the server applies to a
 * query-string value, down to bytes.
 */
module UriComponent {

  type Byte = b: int | 0 <= b < 256

  /** Characters `encodeURIComponent` leaves as they are. */
  predicate Unreserved(c: char) {
    ('A' <= c <= 'Z') || ('a' <= c <= 'z') || ('0' <= c <= '9') ||
    c == '-' || c == '_' || c == '.' || c == '!' || c == '~' || c == '*' || c == '\'' || c == '(' || c == ')'
  }

  predicate IsHexDigit(c: char) {
    ('0' <= c <= '9') || ('A' <= c <= 'F') || ('a' <= c <= 'f')
  }

  /** UTF-8 encoding of one Unicode scalar value. */
  function Utf8(c: char): (bytes: seq<Byte>)
    ensures 1 <= |bytes| <= 4
    ensures c as int < 0x80 ==> bytes == [c as int]
  {
    var cp := c as int;
    if cp < 0x80 then [cp]
    else if cp < 0x800 then [0xC0 + cp / 0x40, 0x80 + cp % 0x40]
    else if cp < 0x10000 then [0xE0 + cp / 0x1000, 0x80 + (cp / 0x40) % 0x40, 0x80 + cp % 0x40]
    else [0xF0 + cp / 0x40000, 0x80 + (cp / 0x1000) % 0x40, 0x80 + (cp / 0x40) % 0x40, 0x80 + cp % 0x40]
  }

  function Utf8String(s: string): seq<Byte> {
    if |s| == 0 then [] else Utf8(s[0]) + Utf8String(s[1..])
  }

  function HexChar(d: nat): (c: char)
    requires d < 16
    ensures IsHexDigit(c)
  {
    if d < 10 then ('0' as int + d) as char else ('A' as int + d - 10) as char
  }

  function HexValue(c: char): (d: nat)
    requires IsHexDigit(c)
    ensures d < 16
  {
    if '0' <= c <= '9' then c as int - '0' as int
    else if 'A' <= c <= 'F' then c as int - 'A' as int + 10
    else c as int - 'a' as int + 10
  }

  /** `%XX` for every byte, upper-case hex digits. */
  function PercentBytes(bytes: seq<Byte>): string {
    if |bytes| == 0 then [] else ['%', HexChar(bytes[0] / 16), HexChar(bytes[0] % 16)] + PercentBytes(bytes[1..])
  }

  function EncodeChar(c: char): string {
    if Unreserved(c) then [c] else PercentBytes(Utf8(c))
  }

  function EncodeUriComponent(s: string): string {
    if |s| == 0 then [] else EncodeChar(s[0]) + EncodeUriComponent(s[1..])
  }

  /** The server's reading of a raw query value: `%XX` is a byte, `+` a space, anything else its UTF-8. */
  function Unquote(s: string): seq<Byte> {
    if |s| == 0 then []
    else if |s| >= 3 && s[0] == '%' && IsHexDigit(s[1]) && IsHexDigit(s[2]) then
      [HexValue(s[1]) * 16 + HexValue(s[2])] + Unquote(s[3..])
    else if s[0] == '+' then [0x20] + Unquote(s[1..])
    else Utf8(s[0]) + Unquote(s[1..])
  }

  /** Characters that can appear in an encoded component. */
  predicate SafeInQuery(c: char) {
    Unreserved(c) || c == '%' || IsHexDigit(c)
  }

  lemma {:induction false} PercentBytesSafe(bytes: seq<Byte>)
    ensures forall k :: 0 <= k < |PercentBytes(bytes)| ==> SafeInQuery(PercentBytes(bytes)[k])
  {
    if |bytes| > 0 {
      PercentBytesSafe(bytes[1..]);
    }
  }

  /**
   * An encoded component holds only unreserved characters, `%` and hex digits,
   * so it cannot end the query value early (`&`, `#`), start another key (`=`)
   * or be read as a space (`+`).
   */
  lemma {:induction false} EncodedIsSafe(s: string)
    ensures forall k :: 0 <= k < |EncodeUriComponent(s)| ==> SafeInQuery(EncodeUriComponent(s)[k])
  {
    if |s| > 0 {
      PercentBytesSafe(Utf8(s[0]));
      EncodedIsSafe(s[1..]);
      var head, tail := EncodeChar(s[0]), EncodeUriComponent(s[1..]);
      assert EncodeUriComponent(s) == head + tail;
      forall k | 0 <= k < |head + tail| ensures SafeInQuery((head + tail)[k]) {
        if k < |head| { assert (head + tail)[k] == head[k]; } else { assert (head + tail)[k] == tail[k - |head|]; }
      }
    }
  }

  lemma HexRoundTrip(b: Byte)
    ensures HexValue(HexChar(b / 16)) * 16 + HexValue(HexChar(b % 16)) == b
  {
  }

  lemma {:induction false} UnquotePercentBytes(bytes: seq<Byte>, rest: string)
    ensures Unquote(PercentBytes(bytes) + rest) == bytes + Unquote(rest)
  {
    if |bytes| > 0 {
      var t := PercentBytes(bytes) + rest;
      var tail := PercentBytes(bytes[1..]) + rest;
      assert t == ['%', HexChar(bytes[0] / 16), HexChar(bytes[0] % 16)] + tail;
      assert t[0] == '%' && t[1] == HexChar(bytes[0] / 16) && t[2] == HexChar(bytes[0] % 16);
      assert t[3..] == tail;
      HexRoundTrip(bytes[0]);
      assert Unquote(t) == [bytes[0]] + Unquote(tail);
      UnquotePercentBytes(bytes[1..], rest);
      assert bytes == [bytes[0]] + bytes[1..];
    } else {
      assert PercentBytes(bytes) + rest == rest;
    }
  }

  lemma UnquoteEncodeChar(c: char, rest: string)
    ensures Unquote(EncodeChar(c) + rest) == Utf8(c) + Unquote(rest)
  {
    if Unreserved(c) {
      var t := [c] + rest;
      assert t[0] == c && t[1..] == rest;
    } else {
      UnquotePercentBytes(Utf8(c), rest);
    }
  }

  /** The server recovers exactly the UTF-8 bytes of the text the client encoded. */
  lemma {:induction false} UnquoteEncode(s: string)
    ensures Unquote(EncodeUriComponent(s)) == Utf8String(s)
  {
    if |s| > 0 {
      UnquoteEncodeChar(s[0], EncodeUriComponent(s[1..]));
      UnquoteEncode(s[1..]);
    }
  }

  /** Text made of unreserved characters is passed through unchanged. */
  lemma {:induction false} EncodeUnreserved(s: string)
    requires forall k :: 0 <= k < |s| ==> Unreserved(s[k])
    ensures EncodeUriComponent(s) == s
  {
    if |s| > 0 {
      EncodeUnreserved(s[1..]);
      assert s == [s[0]] + s[1..];
    }
  }
}
