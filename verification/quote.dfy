/** `urllib.parse.quote` with its default `safe='/'`, and the LMS deep link
    built from it by `generate_lms_link`. */
module Quote {
  import opened Wrappers

  newtype byte = x: int | 0 <= x < 256

  /** The unreserved characters of section 2.3 of RFC 3986:
      ALPHA, DIGIT, '-', '.', '_' and '~'. */
  predicate Unreserved(b: byte) {
    || 'A' as int <= b as int <= 'Z' as int
    || 'a' as int <= b as int <= 'z' as int
    || '0' as int <= b as int <= '9' as int
    || b as int == '-' as int || b as int == '.' as int
    || b as int == '_' as int || b as int == '~' as int
  }

  /** The bytes `quote` copies through unchanged: unreserved ones and '/'. */
  predicate Safe(b: byte) {
    Unreserved(b) || b as int == '/' as int
  }

  /** A character that stands for itself in an encoded string. */
  predicate SafeChar(c: char) {
    c as int < 128 && Safe(c as int as byte)
  }

  /** The UTF-8 encoding of one Unicode scalar value. */
  function EncodeChar(c: char): (bs: seq<byte>)
    ensures 1 <= |bs| <= 4
    ensures |bs| == 1 <==> c as int < 128
    ensures |bs| == 1 ==> bs[0] as int == c as int
  {
    var n := c as int;
    if n < 0x80 then [n as byte]
    else if n < 0x800 then [(0xC0 + n / 0x40) as byte, (0x80 + n % 0x40) as byte]
    else if n < 0x1_0000 then
      [(0xE0 + n / 0x1000) as byte, (0x80 + n / 0x40 % 0x40) as byte, (0x80 + n % 0x40) as byte]
    else
      [(0xF0 + n / 0x4_0000) as byte, (0x80 + n / 0x1000 % 0x40) as byte,
       (0x80 + n / 0x40 % 0x40) as byte, (0x80 + n % 0x40) as byte]
  }

  /** `str.encode('utf-8')`, the first thing `quote` does with a string. */
  function Utf8(s: string): seq<byte> {
    if |s| == 0 then [] else EncodeChar(s[0]) + Utf8(s[1..])
  }

  predicate IsUpperHex(c: char) {
    '0' <= c <= '9' || 'A' <= c <= 'F'
  }

  predicate IsHex(c: char) {
    IsUpperHex(c) || 'a' <= c <= 'f'
  }

  function HexValue(c: char): (n: int)
    requires IsHex(c)
    ensures 0 <= n < 16
  {
    if '0' <= c <= '9' then c as int - '0' as int
    else if 'A' <= c <= 'F' then c as int - 'A' as int + 10
    else c as int - 'a' as int + 10
  }

  /** The upper-case hex digit `quote` writes for a nibble. */
  function HexDigit(n: int): (c: char)
    requires 0 <= n < 16
    ensures IsUpperHex(c) && HexValue(c) == n
  {
    if n < 10 then (n + '0' as int) as char else (n - 10 + 'A' as int) as char
  }

  /** The byte a `%XX` triple stands for. */
  function TripleValue(hi: char, lo: char): byte
    requires IsHex(hi) && IsHex(lo)
  {
    (16 * HexValue(hi) + HexValue(lo)) as byte
  }

  /** One byte as `quote` writes it: itself when safe, otherwise `%XX`. */
  function QuoteByte(b: byte): string {
    if Safe(b) then [b as int as char]
    else ['%', HexDigit(b as int / 16), HexDigit(b as int % 16)]
  }

  /** The canonical encoded form: safe characters stand for themselves and a
      `%XX` triple, with upper-case digits, stands for a byte that is not safe. */
  predicate Encoded(s: string)
    decreases |s|
  {
    if |s| == 0 then true
    else if s[0] == '%' then
      && |s| >= 3 && IsUpperHex(s[1]) && IsUpperHex(s[2])
      && !Safe(TripleValue(s[1], s[2]))
      && Encoded(s[3..])
    else SafeChar(s[0]) && Encoded(s[1..])
  }

  /** `quote` applied to a byte string. */
  function QuoteBytes(bs: seq<byte>): (r: string)
    ensures Encoded(r)
    ensures |bs| <= |r| <= 3 * |bs|
  {
    if |bs| == 0 then []
    else
      var head := QuoteByte(bs[0]);
      var r := head + QuoteBytes(bs[1..]);
      assert r[|head|..] == QuoteBytes(bs[1..]);
      r
  }

  /** `urllib.parse.quote(s)`: UTF-8 encode, then escape every unsafe byte. */
  function Quote(s: string): (r: string)
    ensures Encoded(r)
  {
    QuoteBytes(Utf8(s))
  }

  /** Percent-decoding as section 2.1 of RFC 3986 describes it: a `%XX`
      triple (either case) is the byte it names, any other ASCII character is
      its own byte; a stray '%' or a non-ASCII character is rejected. */
  function PercentDecode(s: string): Option<seq<byte>>
    decreases |s|
  {
    if |s| == 0 then Some([])
    else if s[0] == '%' then
      if |s| >= 3 && IsHex(s[1]) && IsHex(s[2]) then
        match PercentDecode(s[3..])
        case Some(rest) => Some([TripleValue(s[1], s[2])] + rest)
        case None => None
      else None
    else if s[0] as int < 128 then
      match PercentDecode(s[1..])
      case Some(rest) => Some([s[0] as int as byte] + rest)
      case None => None
    else None
  }

  /** Decoding what `quote` wrote gives back exactly the bytes it was given. */
  lemma {:induction false} DecodeQuoteBytes(bs: seq<byte>)
    ensures PercentDecode(QuoteBytes(bs)) == Some(bs)
  {
    if |bs| > 0 {
      var head := QuoteByte(bs[0]);
      var r := QuoteBytes(bs);
      assert r == head + QuoteBytes(bs[1..]);
      assert r[|head|..] == QuoteBytes(bs[1..]);
      DecodeQuoteBytes(bs[1..]);
      if !Safe(bs[0]) {
        assert TripleValue(r[1], r[2]) == bs[0];
      }
      assert bs == [bs[0]] + bs[1..];
    }
  }

  /** The encoding is canonical: the only encoded string that decodes to
      some bytes is the one `quote` writes for them. */
  lemma {:induction false} QuoteCanonical(s: string, bs: seq<byte>)
    requires Encoded(s) && PercentDecode(s) == Some(bs)
    ensures QuoteBytes(bs) == s
    decreases |s|
  {
    if |s| > 0 {
      if s[0] == '%' {
        var rest := PercentDecode(s[3..]).value;
        QuoteCanonical(s[3..], rest);
        var b := TripleValue(s[1], s[2]);
        assert bs == [b] + rest;
        assert bs[1..] == rest;
        assert HexDigit(b as int / 16) == s[1] && HexDigit(b as int % 16) == s[2];
        assert s == QuoteByte(b) + s[3..];
      } else {
        var rest := PercentDecode(s[1..]).value;
        QuoteCanonical(s[1..], rest);
        assert bs[1..] == rest;
        assert s == QuoteByte(bs[0]) + s[1..];
      }
    }
  }

  /** `quote` and percent-decoding are inverse bijections between byte
      strings and canonical encoded strings. */
  lemma QuoteIff(bs: seq<byte>, s: string)
    ensures QuoteBytes(bs) == s <==> Encoded(s) && PercentDecode(s) == Some(bs)
  {
    if QuoteBytes(bs) == s {
      DecodeQuoteBytes(bs);
    }
    if Encoded(s) && PercentDecode(s) == Some(bs) {
      QuoteCanonical(s, bs);
    }
  }

  /** An encoded string never contains the query-parameter separator '&'. */
  lemma {:induction false} EncodedHasNoAmpersand(s: string)
    requires Encoded(s)
    ensures forall i :: 0 <= i < |s| ==> s[i] != '&'
    decreases |s|
  {
    if |s| > 0 {
      if s[0] == '%' {
        EncodedHasNoAmpersand(s[3..]);
        assert forall i :: 3 <= i < |s| ==> s[i] == s[3..][i - 3];
      } else {
        EncodedHasNoAmpersand(s[1..]);
        assert forall i :: 1 <= i < |s| ==> s[i] == s[1..][i - 1];
      }
    }
  }

  /** For ASCII text, UTF-8 is the identity: one byte per character. */
  lemma {:induction false} Utf8Ascii(s: string)
    requires forall i :: 0 <= i < |s| ==> s[i] as int < 128
    ensures |Utf8(s)| == |s|
    ensures forall i :: 0 <= i < |s| ==> Utf8(s)[i] as int == s[i] as int
  {
    if |s| > 0 {
      Utf8Ascii(s[1..]);
      assert Utf8(s) == EncodeChar(s[0]) + Utf8(s[1..]);
    }
  }

  /** The fixed command part of the deep link, up to the `p2` value. */
  const StatusPath := "/status.html?p0=playlist&p1=play&p2="

  /** The separator between the `p2` value and the player id. */
  const PlayerParam := "&player="

  /** `generate_lms_link(uri)` for the configured server and player. */
  function LmsLink(server: string, player: string, uri: string): string {
    server + StatusPath + Quote(uri) + PlayerParam + player
  }

  /** The characters of `s` before its first '&': one query-parameter value. */
  function ParamValue(s: string): (r: string)
    ensures |r| <= |s| && r == s[..|r|]
    ensures forall i :: 0 <= i < |r| ==> r[i] != '&'
    ensures |r| < |s| ==> s[|r|] == '&'
  {
    if |s| == 0 || s[0] == '&' then [] else [s[0]] + ParamValue(s[1..])
  }

  lemma {:induction false} ParamValueStops(v: string, tail: string)
    requires forall i :: 0 <= i < |v| ==> v[i] != '&'
    requires |tail| > 0 && tail[0] == '&'
    ensures ParamValue(v + tail) == v
  {
    if |v| > 0 {
      assert (v + tail)[1..] == v[1..] + tail;
      ParamValueStops(v[1..], tail);
    } else {
      assert v + tail == tail;
    }
  }

  /** The deep link is the server, the fixed command path, the `p2` value
      and `&player=` with the player id; the `p2` value runs to the next '&'
      and percent-decodes to the UTF-8 bytes of the catalog URI. */
  lemma LinkCarriesUri(server: string, player: string, uri: string)
    ensures var link := LmsLink(server, player, uri);
            var start := |server| + |StatusPath|;
            && start <= |link|
            && link[..start] == server + StatusPath
            && ParamValue(link[start..]) == Quote(uri)
            && PercentDecode(ParamValue(link[start..])) == Some(Utf8(uri))
            && link[start + |Quote(uri)|..] == PlayerParam + player
  {
    var link := LmsLink(server, player, uri);
    var start := |server| + |StatusPath|;
    var q := Quote(uri);
    assert link == (server + StatusPath) + (q + (PlayerParam + player));
    assert link[start..] == q + (PlayerParam + player);
    EncodedHasNoAmpersand(q);
    ParamValueStops(q, PlayerParam + player);
    DecodeQuoteBytes(Utf8(uri));
  }
}
