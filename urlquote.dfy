/**
 * `urllib.parse.quote(query)`, which the `/search` handler applies to the
 * query before putting it into the "Special:Search" link: the query is
 * encoded as UTF-8 and every byte outside the unreserved ASCII set and '/'
 * becomes "%XX" with upper-case hexadecimal digits.
 */
module UrlQuote {

  /** A byte value. */
  type Byte = b: int | 0 <= b < 256

  /** Characters `quote` never encodes with its default `safe='/'`:
      ASCII letters, digits, "_.-~" and '/'. */
  predicate SafeByte(b: Byte) {
    ('A' as int <= b <= 'Z' as int) || ('a' as int <= b <= 'z' as int)
    || ('0' as int <= b <= '9' as int)
    || b == '_' as int || b == '.' as int || b == '-' as int || b == '~' as int
    || b == '/' as int
  }

  /** The UTF-8 encoding of one character: one byte below 0x80, then two,
      three or four bytes whose lead byte announces the length and whose
      continuation bytes are 10xxxxxx. */
  function Utf8(c: char): (bs: seq<Byte>)
    ensures |bs| == if c as int < 0x80 then 1 else if c as int < 0x800 then 2
                    else if c as int < 0x10000 then 3 else 4
    ensures |bs| == 1 ==> bs[0] == c as int
    ensures |bs| > 1 ==> bs[0] >= 0xC0
    ensures forall k :: 1 <= k < |bs| ==> 0x80 <= bs[k] < 0xC0
  {
    var n := c as int;
    if n < 0x80 then [n]
    else if n < 0x800 then [0xC0 + n / 64, 0x80 + n % 64]
    else if n < 0x10000 then [0xE0 + n / 4096, 0x80 + (n / 64) % 64, 0x80 + n % 64]
    else [0xF0 + n / 262144, 0x80 + (n / 4096) % 64, 0x80 + (n / 64) % 64, 0x80 + n % 64]
  }

  /** The code point a one-character UTF-8 sequence stands for. */
  function Utf8Value(bs: seq<Byte>): int
    requires 1 <= |bs| <= 4
  {
    var b: seq<int> := bs;
    if |b| == 1 then b[0]
    else if |b| == 2 then (b[0] - 0xC0) * 64 + (b[1] - 0x80)
    else if |b| == 3 then (b[0] - 0xE0) * 4096 + (b[1] - 0x80) * 64 + (b[2] - 0x80)
    else (b[0] - 0xF0) * 262144 + (b[1] - 0x80) * 4096 + (b[2] - 0x80) * 64 + (b[3] - 0x80)
  }

  /** Decoding the UTF-8 bytes of a character gives its code point back. */
  lemma Utf8RoundTrip(c: char)
    ensures Utf8Value(Utf8(c)) == c as int
  {
    var n := c as int;
    assert n == 64 * (n / 64) + n % 64;
    assert n / 64 == 64 * (n / 4096) + (n / 64) % 64;
    assert n / 4096 == 64 * (n / 262144) + (n / 4096) % 64;
  }

  /** `s.encode('utf-8')`. */
  function Utf8Encode(s: string): (bs: seq<Byte>)
    ensures |bs| >= |s|
  {
    if s == [] then [] else Utf8(s[0]) + Utf8Encode(s[1..])
  }

  /** An upper-case hexadecimal digit. */
  function HexDigit(d: int): (c: char)
    requires 0 <= d < 16
    ensures IsUpperHexDigit(c) && IsHexDigit(c) && c as int < 0x80 && SafeByte(c as int)
  {
    if d < 10 then ('0' as int + d) as char else ('A' as int + d - 10) as char
  }

  predicate IsUpperHexDigit(c: char) {
    ('0' <= c <= '9') || ('A' <= c <= 'F')
  }

  predicate IsHexDigit(c: char) {
    ('0' <= c <= '9') || ('A' <= c <= 'F') || ('a' <= c <= 'f')
  }

  /** The value of a hexadecimal digit of either case. */
  function HexValue(c: char): (d: int)
    requires IsHexDigit(c)
    ensures 0 <= d < 16
  {
    if '0' <= c <= '9' then c as int - '0' as int
    else if 'A' <= c <= 'F' then c as int - 'A' as int + 10
    else c as int - 'a' as int + 10
  }

  /** One byte as `quote` writes it. */
  function QuoteByte(b: Byte): (r: string)
    ensures SafeByte(b) ==> r == [b as char]
    ensures !SafeByte(b) ==>
      (|r| == 3 && r[0] == '%' && IsUpperHexDigit(r[1]) && IsUpperHexDigit(r[2])
       && IsHexDigit(r[1]) && IsHexDigit(r[2])
       && 16 * HexValue(r[1]) + HexValue(r[2]) == b)
  {
    if SafeByte(b) then [b as char] else ['%', HexDigit(b / 16), HexDigit(b % 16)]
  }

  /** `urllib.parse.quote_from_bytes(bs, safe='/')`. */
  function QuoteBytes(bs: seq<Byte>): string {
    if bs == [] then [] else QuoteByte(bs[0]) + QuoteBytes(bs[1..])
  }

  /** `urllib.parse.quote(s, safe='/')`. */
  function Quote(s: string): string {
    QuoteBytes(Utf8Encode(s))
  }

  /** `urllib.parse.unquote_to_bytes(s)`: "%XX" with two hexadecimal digits
      is one byte, any other character stands for its own code (here only
      ASCII is meant). */
  function UnquoteToBytes(s: string): seq<int> {
    if s == [] then []
    else if |s| >= 3 && s[0] == '%' && IsHexDigit(s[1]) && IsHexDigit(s[2])
    then [16 * HexValue(s[1]) + HexValue(s[2])] + UnquoteToBytes(s[3..])
    else [s[0] as int] + UnquoteToBytes(s[1..])
  }

  /** Unquoting the quoted form of one byte gives the byte back, whatever
      follows it. */
  lemma UnquoteQuotedByte(b: Byte, rest: string)
    ensures UnquoteToBytes(QuoteByte(b) + rest) == [b] + UnquoteToBytes(rest)
  {
    var q := QuoteByte(b);
    if SafeByte(b) {
      assert (q + rest)[0] == b as char && (q + rest)[1..] == rest;
    } else {
      assert (q + rest)[..3] == q && (q + rest)[3..] == rest;
    }
  }

  /** Unquoting undoes quoting, byte for byte. */
  lemma {:induction false} UnquoteQuoteBytes(bs: seq<Byte>)
    ensures UnquoteToBytes(QuoteBytes(bs)) == bs
  {
    if bs != [] {
      UnquoteQuotedByte(bs[0], QuoteBytes(bs[1..]));
      UnquoteQuoteBytes(bs[1..]);
      assert [bs[0]] + bs[1..] == bs;
    }
  }

  /** What `quote` produces is link-safe: every character is '%' or an
      unreserved ASCII character. */
  predicate LinkSafe(t: string) {
    forall i :: 0 <= i < |t| ==> t[i] == '%' || (t[i] as int < 0x80 && SafeByte(t[i] as int))
  }

  lemma {:induction false} QuoteBytesLinkSafe(bs: seq<Byte>)
    ensures LinkSafe(QuoteBytes(bs))
  {
    if bs != [] {
      QuoteBytesLinkSafe(bs[1..]);
      var q := QuoteByte(bs[0]);
      var rest := QuoteBytes(bs[1..]);
      var t := q + rest;
      forall i | 0 <= i < |t|
        ensures t[i] == '%' || (t[i] as int < 0x80 && SafeByte(t[i] as int))
      {
        if i >= |q| {
          assert t[i] == rest[i - |q|];
        }
      }
    }
  }

  /** The query link never contains a space, '&' or '#', which would end or
      split the query string. */
  lemma QuoteLinkSafe(s: string)
    ensures LinkSafe(Quote(s))
    ensures ' ' !in Quote(s) && '&' !in Quote(s) && '#' !in Quote(s)
  {
    var t := Quote(s);
    QuoteBytesLinkSafe(Utf8Encode(s));
    forall c | c in t ensures c != ' ' && c != '&' && c != '#' {
      var i :| 0 <= i < |t| && t[i] == c;
    }
  }

  /** A query made only of unreserved ASCII characters is left alone. */
  lemma {:induction false} QuoteKeepsSafe(s: string)
    requires forall i :: 0 <= i < |s| ==> s[i] as int < 0x80 && SafeByte(s[i] as int)
    ensures Quote(s) == s
  {
    if s != [] {
      QuoteKeepsSafe(s[1..]);
      assert Utf8(s[0]) == [s[0] as int];
      assert Utf8Encode(s) == [s[0] as int] + Utf8Encode(s[1..]);
      assert ([s[0] as int] + Utf8Encode(s[1..]))[1..] == Utf8Encode(s[1..]);
    }
  }
}
