/** The two text encodings var_to_xml applies before a text enters a record:
    `make_valid_xml_value` (XML escaping, pydevd_xml.py:21-22) and
    `quote(s, '/>_= ')` (percent encoding, section 2.1 of RFC 3986, as
    Python 3's urllib.parse.quote does it: UTF-8 bytes, upper-case hex).
    Each comes with the decoder a front end applies, and a round-trip lemma. */
module XmlEscape {
  import opened TextUtil
  import opened PyObjects

  // ---------------------------------------------------------------------
  // XML escaping: escape(s, {'"': '&quot;'})

  function EscapeChar(c: char): (r: string)
    ensures '<' !in r && '>' !in r && '"' !in r
    ensures 1 <= |r|
    ensures !IsMarkup(c) ==> r == [c]
  {
    if c == '&' then "&amp;"
    else if c == '<' then "&lt;"
    else if c == '>' then "&gt;"
    else if c == '"' then "&quot;"
    else [c]
  }

  /** The characters an attribute value may not contain raw. Note that the
      single quote is not among them: it is left as it is. */
  predicate IsMarkup(c: char) {
    c == '&' || c == '<' || c == '>' || c == '"'
  }

  function MakeValidXmlValue(s: string): (r: string)
    ensures '<' !in r && '>' !in r && '"' !in r
    ensures (forall i :: 0 <= i < |s| ==> !IsMarkup(s[i])) ==> r == s
    ensures |s| <= |r|
    ensures r == [] <==> s == []
  {
    if s == [] then []
    else
      var head, tail := EscapeChar(s[0]), MakeValidXmlValue(s[1..]);
      HeadTail(s);
      head + tail
  }

  /** The character an entity at the head of `s` stands for, with the
      entity's length. */
  function EntityAt(s: string): Option<(char, nat)> {
    if StartsWith(s, "&amp;") then Some(('&', 5))
    else if StartsWith(s, "&lt;") then Some(('<', 4))
    else if StartsWith(s, "&gt;") then Some(('>', 4))
    else if StartsWith(s, "&quot;") then Some(('"', 6))
    else None
  }

  /** Reads entities back: the inverse of MakeValidXmlValue. */
  function UnescapeXml(s: string): string
    decreases |s|
  {
    if s == [] then []
    else match EntityAt(s)
      case Some((c, n)) => [c] + UnescapeXml(s[n..])
      case None => [s[0]] + UnescapeXml(s[1..])
  }

  lemma EntityOfEscapeChar(c: char, rest: string)
    ensures IsMarkup(c) ==> EntityAt(EscapeChar(c) + rest) == Some((c, |EscapeChar(c)|))
    ensures !IsMarkup(c) ==> EntityAt(EscapeChar(c) + rest).None?
  {
    var s := EscapeChar(c) + rest;
    if c == '&' {
      assert s[..5] == "&amp;";
    } else if c == '<' {
      assert s[1] == 'l' && s[..4] == "&lt;";
    } else if c == '>' {
      assert s[1] == 'g' && s[..4] == "&gt;";
    } else if c == '"' {
      assert s[1] == 'q' && s[..6] == "&quot;";
    } else {
      assert s[0] == c && c != '&';
      assert !StartsWith(s, "&amp;") && !StartsWith(s, "&lt;");
      assert !StartsWith(s, "&gt;") && !StartsWith(s, "&quot;");
    }
  }

  lemma UnescapeEscapeChar(c: char, rest: string)
    ensures UnescapeXml(EscapeChar(c) + rest) == [c] + UnescapeXml(rest)
  {
    var s := EscapeChar(c) + rest;
    EntityOfEscapeChar(c, rest);
    assert s[|EscapeChar(c)|..] == rest;
  }

  /** Escaping loses nothing: a front end that reads the entities back gets
      the original text. */
  lemma {:induction false} EscapeRoundTrip(s: string)
    ensures UnescapeXml(MakeValidXmlValue(s)) == s
  {
    if s != [] {
      UnescapeEscapeChar(s[0], MakeValidXmlValue(s[1..]));
      EscapeRoundTrip(s[1..]);
    }
  }

  // ---------------------------------------------------------------------
  // Percent encoding: quote(s, '/>_= ')

  /** Characters Python 3 (3.7 and later) never quotes. */
  predicate IsAlwaysSafe(c: char) {
    ('a' <= c <= 'z') || ('A' <= c <= 'Z') || ('0' <= c <= '9')
    || c == '_' || c == '.' || c == '-' || c == '~'
  }

  /** The `safe` argument pydevd_xml.py passes to both of its `quote` calls. */
  const QuoteSafe: string := "/>_= "

  predicate IsUnquoted(c: char) {
    IsAlwaysSafe(c) || c in QuoteSafe
  }

  predicate IsByte(b: nat) {
    b < 256
  }

  /** The UTF-8 encoding of one character. */
  function Utf8(c: char): (bs: seq<nat>)
    ensures 1 <= |bs| <= 4
    ensures forall i :: 0 <= i < |bs| ==> IsByte(bs[i])
  {
    var cp := c as int;
    if cp < 0x80 then [cp]
    else if cp < 0x800 then [0xC0 + cp / 64, 0x80 + cp % 64]
    else if cp < 0x10000 then [0xE0 + cp / 4096, 0x80 + (cp / 64) % 64, 0x80 + cp % 64]
    else [0xF0 + cp / 0x40000, 0x80 + (cp / 4096) % 64, 0x80 + (cp / 64) % 64, 0x80 + cp % 64]
  }

  function HexDigit(d: nat): (c: char)
    requires d < 16
    ensures IsAlwaysSafe(c)
  {
    "0123456789ABCDEF"[d]
  }

  predicate IsHexDigit(c: char) {
    ('0' <= c <= '9') || ('A' <= c <= 'F') || ('a' <= c <= 'f')
  }

  function HexValue(c: char): (d: nat)
    requires IsHexDigit(c)
    ensures d < 16
  {
    if '0' <= c <= '9' then c as int - '0' as int
    else if 'A' <= c <= 'F' then c as int - 'A' as int + 10
    else c as int - 'a' as int + 10
  }

  lemma HexRoundTrip(d: nat)
    requires d < 16
    ensures IsHexDigit(HexDigit(d)) && HexValue(HexDigit(d)) == d
  {
  }

  /** "%XX" for each byte, with upper-case hex digits. */
  function PercentEncode(bs: seq<nat>): (r: string)
    requires forall i :: 0 <= i < |bs| ==> IsByte(bs[i])
    ensures |r| == 3 * |bs|
    ensures forall i :: 0 <= i < |r| ==> r[i] == '%' || IsAlwaysSafe(r[i])
  {
    if bs == [] then []
    else
      assert IsByte(bs[0]);
      PercentTriple(bs[0]) + PercentEncode(bs[1..])
  }

  function PercentTriple(b: nat): (r: string)
    requires IsByte(b)
    ensures |r| == 3 && r[0] == '%' && IsAlwaysSafe(r[1]) && IsAlwaysSafe(r[2])
  {
    ['%', HexDigit(b / 16), HexDigit(b % 16)]
  }

  function QuoteChar(c: char): string {
    if IsUnquoted(c) then [c] else PercentEncode(Utf8(c))
  }

  /** quote(s, '/>_= '). The result holds only unquoted characters and '%',
      so of the markup characters only '>' can survive into it. */
  function Quote(s: string): (r: string)
    ensures forall i :: 0 <= i < |r| ==> r[i] == '%' || IsUnquoted(r[i])
    ensures |s| <= |r|
    ensures r == [] <==> s == []
    ensures (forall i :: 0 <= i < |s| ==> IsUnquoted(s[i])) ==> r == s
  {
    if s == [] then []
    else QuoteChar(s[0]) + Quote(s[1..])
  }

  // ---------------------------------------------------------------------
  // The decoder for Quote.

  /** The byte written as "%XX" at the head of `s`, if any. */
  function PercentByteAt(s: string): Option<nat> {
    if 3 <= |s| && s[0] == '%' && IsHexDigit(s[1]) && IsHexDigit(s[2])
    then Some(16 * HexValue(s[1]) + HexValue(s[2]))
    else None
  }

  /** `n` consecutive "%XX" bytes at the head of `s`. */
  function ReadBytes(s: string, n: nat): (r: Option<seq<nat>>)
    ensures r.Some? ==> |r.value| == n && 3 * n <= |s|
  {
    if n == 0 then Some([])
    else match PercentByteAt(s)
      case None => None
      case Some(b) =>
        match ReadBytes(s[3..], n - 1)
        case None => None
        case Some(bs) => Some([b] + bs)
  }

  /** How many bytes a UTF-8 sequence starting with `b0` has (0: none). */
  function Utf8Length(b0: nat): nat {
    if b0 < 0x80 then 1
    else if 0xC0 <= b0 < 0xE0 then 2
    else if 0xE0 <= b0 < 0xF0 then 3
    else if 0xF0 <= b0 < 0xF8 then 4
    else 0
  }

  function DecodeUtf8(bs: seq<nat>): Option<char>
    requires 1 <= |bs| <= 4
  {
    var b: seq<int> := bs;
    var cp :=
      if |b| == 1 then b[0]
      else if |b| == 2 then (b[0] - 0xC0) * 64 + (b[1] - 0x80)
      else if |b| == 3 then (b[0] - 0xE0) * 4096 + (b[1] - 0x80) * 64 + (b[2] - 0x80)
      else (b[0] - 0xF0) * 0x40000 + (b[1] - 0x80) * 4096 + (b[2] - 0x80) * 64 + (b[3] - 0x80);
    if 0 <= cp < 0xD800 || 0xE000 <= cp < 0x110000 then Some(cp as char) else None
  }

  /** The character percent-encoded at the head of `s`, with the length of
      its encoding. */
  function DecodeAt(s: string): (r: Option<(char, nat)>)
    ensures r.Some? ==> 1 <= r.value.1 <= |s|
  {
    match PercentByteAt(s)
    case None => None
    case Some(b0) =>
      var n := Utf8Length(b0);
      if n == 0 then None
      else match ReadBytes(s, n)
        case None => None
        case Some(bs) =>
          match DecodeUtf8(bs)
          case None => None
          case Some(c) => Some((c, 3 * n))
  }

  /** Reads percent escapes back (what the front end does with the name and
      value attributes once their entities are read). */
  function Unquote(s: string): string
    decreases |s|
  {
    if s == [] then []
    else match DecodeAt(s)
      case Some((c, n)) => [c] + Unquote(s[n..])
      case None => [s[0]] + Unquote(s[1..])
  }

  lemma Utf8Decodes(c: char)
    ensures Utf8Length(Utf8(c)[0]) == |Utf8(c)|
    ensures DecodeUtf8(Utf8(c)) == Some(c)
  {
    var cp := c as int;
    if cp < 0x80 {
    } else if cp < 0x800 {
      assert (cp / 64) * 64 + cp % 64 == cp;
    } else if cp < 0x10000 {
      DivModSplit(cp);
    } else {
      DivModSplit(cp);
      DivModSplit(cp / 64);
      assert cp / 64 / 4096 == cp / 0x40000;
      assert (cp / 0x40000) * 0x40000 + (cp / 4096 % 64) * 4096 + (cp / 64 % 64) * 64 + cp % 64 == cp;
    }
  }

  /** `cp` split into its part above 4096 and its two lowest base-64
      digits, as the three-byte UTF-8 form does. */
  lemma DivModSplit(cp: nat)
    ensures cp / 64 / 64 == cp / 4096
    ensures (cp / 4096) * 4096 + (cp / 64 % 64) * 64 + cp % 64 == cp
  {
    assert cp / 64 == (cp / 64 / 64) * 64 + cp / 64 % 64;
    assert cp == (cp / 64) * 64 + cp % 64;
  }

  lemma PercentTripleReads(b: nat, rest: string)
    requires IsByte(b)
    ensures PercentByteAt(PercentTriple(b) + rest) == Some(b)
  {
    HexRoundTrip(b / 16);
    HexRoundTrip(b % 16);
  }

  lemma {:induction false} ReadPercentEncoded(bs: seq<nat>, rest: string)
    requires forall i :: 0 <= i < |bs| ==> IsByte(bs[i])
    ensures ReadBytes(PercentEncode(bs) + rest, |bs|) == Some(bs)
  {
    if bs != [] {
      PercentEncodeCons(bs);
      var tail := PercentEncode(bs[1..]) + rest;
      Assoc(PercentTriple(bs[0]), PercentEncode(bs[1..]), rest);
      PercentTripleReads(bs[0], tail);
      DropPrefix(PercentTriple(bs[0]), tail);
      ReadPercentEncoded(bs[1..], rest);
      HeadTail(bs);
    }
  }

  lemma UnquoteUnquotedChar(c: char, rest: string)
    requires IsUnquoted(c)
    ensures Unquote([c] + rest) == [c] + Unquote(rest)
  {
    var s := [c] + rest;
    assert s[0] == c && c != '%' && s[1..] == rest;
    assert PercentByteAt(s).None?;
  }

  /** The first escape of an encoding reads as its first byte. */
  lemma PercentByteAtHead(bs: seq<nat>, rest: string)
    requires 1 <= |bs| && forall i :: 0 <= i < |bs| ==> IsByte(bs[i])
    ensures PercentByteAt(PercentEncode(bs) + rest) == Some(bs[0])
  {
    PercentEncodeCons(bs);
    Assoc(PercentTriple(bs[0]), PercentEncode(bs[1..]), rest);
    PercentTripleReads(bs[0], PercentEncode(bs[1..]) + rest);
  }

  lemma PercentEncodeCons(bs: seq<nat>)
    requires 1 <= |bs| && forall i :: 0 <= i < |bs| ==> IsByte(bs[i])
    ensures IsByte(bs[0]) && forall i :: 0 <= i < |bs[1..]| ==> IsByte(bs[1..][i])
    ensures PercentEncode(bs) == PercentTriple(bs[0]) + PercentEncode(bs[1..])
  {
  }

  /** The escapes of a character's UTF-8 bytes decode to that character. */
  lemma DecodeEncoded(c: char, rest: string)
    ensures DecodeAt(PercentEncode(Utf8(c)) + rest) == Some((c, 3 * |Utf8(c)|))
  {
    var bs := Utf8(c);
    Utf8Decodes(c);
    ReadPercentEncoded(bs, rest);
    PercentByteAtHead(bs, rest);
  }

  lemma UnquotePercentEncodedChar(c: char, rest: string)
    ensures Unquote(PercentEncode(Utf8(c)) + rest) == [c] + Unquote(rest)
  {
    var bs := Utf8(c);
    var s := PercentEncode(bs) + rest;
    DecodeEncoded(c, rest);
    assert s[3 * |bs|..] == rest;
  }

  lemma UnquoteQuoteChar(c: char, rest: string)
    ensures Unquote(QuoteChar(c) + rest) == [c] + Unquote(rest)
  {
    if IsUnquoted(c) {
      UnquoteUnquotedChar(c, rest);
    } else {
      UnquotePercentEncodedChar(c, rest);
    }
  }

  /** Quoting loses nothing: every string, ASCII or not, reads back. */
  lemma {:induction false} QuoteRoundTrip(s: string)
    ensures Unquote(Quote(s)) == s
  {
    if s != [] {
      UnquoteQuoteChar(s[0], Quote(s[1..]));
      QuoteRoundTrip(s[1..]);
    }
  }
}
