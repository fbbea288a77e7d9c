/**
 * Python's `urllib.parse.quote(s)` (UTF-8 bytes, everything outside the
 * unreserved set of section 2.3 of RFC 3986 and `/` written as `%XX` with
 * upper-case hex digits, as section 2.1 of RFC 3986 describes) and the
 * `urllib.parse.unquote` that reverses it.
 */
module Percent {
  import opened Wrappers
  import opened Chars
  import opened Utf8

  /** Characters `quote` leaves literal: ALPHA, DIGIT, `-`, `.`, `_`, `~`, and the default safe `/`. */
  predicate IsSafeChar(c: char)
  {
    IsAsciiUpper(c) || IsAsciiLower(c) || IsDigit(c) || c == '-' || c == '.' || c == '_' || c == '~' || c == '/'
  }

  const HexDigits: string := "0123456789ABCDEF"

  function HexDigit(n: int): (c: char)
    requires 0 <= n < 16
    ensures IsSafeChar(c)
  {
    HexDigits[n]
  }

  /** The value of a hexadecimal digit of either case, as `unquote` reads it. */
  function HexValue(c: char): (r: Option<int>)
    ensures r.Some? ==> 0 <= r.value < 16
  {
    if IsDigit(c) then Some(c as int - '0' as int)
    else if 'A' <= c <= 'F' then Some(c as int - 'A' as int + 10)
    else if 'a' <= c <= 'f' then Some(c as int - 'a' as int + 10)
    else None
  }

  /** How `quote` writes one byte. */
  function QuoteByte(b: Byte): string
  {
    if IsSafeChar(b as char) then [b as char] else ['%', HexDigit(b / 16), HexDigit(b % 16)]
  }

  /** `quote` on bytes: its output holds only literal-safe characters and `%`. */
  function QuoteBytes(bs: seq<Byte>): (r: string)
    ensures forall i :: 0 <= i < |r| ==> IsSafeChar(r[i]) || r[i] == '%'
  {
    if bs == [] then [] else QuoteByte(bs[0]) + QuoteBytes(bs[1..])
  }

  /**
   * `urllib.parse.quote(s)`. The result holds no character that would end or
   * split a query parameter: no space, `?`, `&`, `=` or `#`.
   */
  function Quote(s: string): (r: string)
    ensures forall c :: c in r ==> IsSafeChar(c) || c == '%'
    ensures ' ' !in r && '?' !in r && '&' !in r && '=' !in r && '#' !in r
  {
    QuoteBytes(Encode(s))
  }

  /**
   * The percent-decoding step of `unquote`: `%XX` with two hex digits is the
   * byte XX, every other ASCII character (a stray `%` included) stands for
   * itself. Non-ASCII input is outside this model and gives `None`.
   */
  function PercentDecode(s: string): Option<seq<Byte>>
  {
    if s == [] then Some([])
    else if s[0] as int >= 0x80 then None
    else if s[0] == '%' && |s| >= 3 && HexValue(s[1]).Some? && HexValue(s[2]).Some? then
      match PercentDecode(s[3..])
      case None => None
      case Some(rest) => Some([HexValue(s[1]).value * 16 + HexValue(s[2]).value] + rest)
    else
      match PercentDecode(s[1..])
      case None => None
      case Some(rest) => Some([s[0] as int] + rest)
  }

  /** `urllib.parse.unquote(s)` on ASCII input whose escapes spell valid UTF-8. */
  function Unquote(s: string): Option<string>
  {
    match PercentDecode(s)
    case None => None
    case Some(bs) => Decode(bs)
  }

  lemma HexValueOfDigit(n: int)
    requires 0 <= n < 16
    ensures HexValue(HexDigit(n)) == Some(n)
  {
  }

  /** Percent-decoding the quoted bytes gives the bytes back. */
  lemma {:induction false} PercentDecodeQuoteBytes(bs: seq<Byte>)
    ensures PercentDecode(QuoteBytes(bs)) == Some(bs)
  {
    if bs != [] {
      var b, q := bs[0], QuoteByte(bs[0]);
      var tail := QuoteBytes(bs[1..]);
      PercentDecodeQuoteBytes(bs[1..]);
      assert QuoteBytes(bs) == q + tail;
      if IsSafeChar(b as char) {
        assert (q + tail)[0] == b as char && (q + tail)[1..] == tail;
      } else {
        HexValueOfDigit(b / 16);
        HexValueOfDigit(b % 16);
        assert (q + tail)[0] == '%' && (q + tail)[1] == HexDigit(b / 16) && (q + tail)[2] == HexDigit(b % 16);
        assert (q + tail)[3..] == tail;
      }
      assert [b] + bs[1..] == bs;
    }
  }

  /** `unquote(quote(s)) == s`: the message travels through the link intact. */
  lemma UnquoteQuote(s: string)
    ensures Unquote(Quote(s)) == Some(s)
  {
    PercentDecodeQuoteBytes(Encode(s));
    DecodeEncode(s);
  }
}
