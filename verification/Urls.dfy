/**
 The string half of threads-be/src/uploads/s3.service.ts and of `extractKeyFromUrl` in
 threads-be/src/modules/posts/posts.service.ts: a key becomes a URL when an image is stored, and the
 URL becomes a key again when the post is deleted. The way back goes through the URL parser, which
 follows the basic URL parser of the URL Standard (WHATWG), section 4.4, for the schemes http and https.
 */
module Urls {
  import opened Collections

  /**
   What is left open of the parser: which texts it accepts as credentials, host and port, what it does
   with other schemes, and whether it is recent enough to encode `^` in paths.
   */
  datatype Parser = Parser(accepts: string -> bool, otherScheme: string -> Option<string>, encodesCaret: bool)

  /** Where the files are served from. */
  datatype Site = Site(domain: string, parser: Parser)

  // ---------------------------------------------------------------------------------------
  // The parser
  // ---------------------------------------------------------------------------------------

  predicate IsControlOrSpace(c: char) {
    c <= ' '
  }

  predicate IsTabOrNewline(c: char) {
    c == '\t' || c == '\n' || c == '\r'
  }

  predicate IsSlash(c: char) {
    c == '/' || c == '\\'
  }

  function TrimStart(s: string): string {
    if s != "" && IsControlOrSpace(s[0]) then TrimStart(s[1..]) else s
  }

  function TrimEnd(s: string): (r: string)
    ensures r <= s
  {
    if s != "" && IsControlOrSpace(s[|s| - 1]) then TrimEnd(s[..|s| - 1]) else s
  }

  function WithoutNewlines(s: string): string {
    if s == "" then "" else (if IsTabOrNewline(s[0]) then "" else [s[0]]) + WithoutNewlines(s[1..])
  }

  /** What the parser drops before it looks: controls and spaces at both ends, tabs and newlines anywhere. */
  function Stripped(s: string): string {
    WithoutNewlines(TrimEnd(TrimStart(s)))
  }

  /** The longest prefix without any of the given characters. */
  function Until(s: string, stop: set<char>): (r: string)
    ensures r <= s && (forall c :: c in r ==> c !in stop)
    ensures |r| < |s| ==> s[|r|] in stop
  {
    if s == "" || s[0] in stop then "" else [s[0]] + Until(s[1..], stop)
  }

  function Lower(c: char): char {
    if 'A' <= c <= 'Z' then 'a' + (c - 'A') else c
  }

  function LowerAll(s: string): (r: string)
    ensures |r| == |s| && forall i :: 0 <= i < |s| ==> r[i] == Lower(s[i])
  {
    seq(|s|, i requires 0 <= i < |s| => Lower(s[i]))
  }

  predicate IsSchemeChar(c: char) {
    'a' <= c <= 'z' || 'A' <= c <= 'Z' || '0' <= c <= '9' || c == '+' || c == '-' || c == '.'
  }

  predicate IsScheme(s: string) {
    s != "" && ('a' <= Lower(s[0]) <= 'z') && forall c :: c in s ==> IsSchemeChar(c)
  }

  function SkipSlashes(s: string): string {
    if s != "" && IsSlash(s[0]) then SkipSlashes(s[1..]) else s
  }

  const AUTHORITY_ENDS := {'/', '\\', '?', '#'}
  const PATH_ENDS := {'?', '#'}

  /** The text of the path as it stands in the URL. */
  datatype Parts = Throws | Other | Path(text: string)

  function Parse(parser: Parser, url: string): Parts {
    var s := Stripped(url);
    var scheme := Until(s, {':'});
    if |scheme| == |s| || !IsScheme(scheme) then Throws
    else if LowerAll(scheme) != "http" && LowerAll(scheme) != "https" then Other
    else ParseRest(parser, SkipSlashes(s[|scheme| + 1..]))
  }

  function ParseRest(parser: Parser, rest: string): Parts {
    var authority := Until(rest, AUTHORITY_ENDS);
    if authority == "" || !parser.accepts(authority) then Throws
    else Path(Until(rest[|authority|..], PATH_ENDS))
  }

  predicate IsPercentOrHex(c: char) {
    c == '%' || '0' <= c <= '9' || 'A' <= c <= 'F'
  }

  function HexDigit(n: int): (c: char)
    requires 0 <= n < 16
    ensures IsPercentOrHex(c)
  {
    if n < 10 then '0' + n as char else 'A' + (n - 10) as char
  }

  function Percent(byte: int): (r: string)
    ensures forall c :: c in r ==> IsPercentOrHex(c)
  {
    ['%', HexDigit(byte / 16 % 16), HexDigit(byte % 16)]
  }

  /** The UTF-8 bytes of a character. */
  function Utf8(n: int): seq<int> {
    if n < 0x80 then [n]
    else if n < 0x800 then [0xC0 + n / 0x40, 0x80 + n % 0x40]
    else if n < 0x1_0000 then [0xE0 + n / 0x1000, 0x80 + n / 0x40 % 0x40, 0x80 + n % 0x40]
    else [0xF0 + n / 0x4_0000, 0x80 + n / 0x1000 % 0x40, 0x80 + n / 0x40 % 0x40, 0x80 + n % 0x40]
  }

  function Escaped(bytes: seq<int>): (r: string)
    ensures forall d :: d in r ==> IsPercentOrHex(d)
  {
    if bytes == [] then "" else Percent(bytes[0]) + Escaped(bytes[1..])
  }

  function Encoded(c: char): (r: string)
    ensures forall d :: d in r ==> IsPercentOrHex(d)
  {
    Escaped(Utf8(c as int))
  }

  /** The path percent-encode set. */
  predicate IsEncoded(parser: Parser, c: char) {
    c <= ' ' || c > '~' || c in {'"', '#', '<', '>', '?', '`', '{', '}'} || (c == '^' && parser.encodesCaret)
  }

  function EncodedText(parser: Parser, s: string): string {
    if s == "" then "" else (if IsEncoded(parser, s[0]) then Encoded(s[0]) else [s[0]]) + EncodedText(parser, s[1..])
  }

  /** The pieces between slashes and backslashes. */
  function Split(s: string): (r: seq<string>)
    ensures r != []
  {
    if s == "" then [""]
    else if IsSlash(s[0]) then [""] + Split(s[1..])
    else
      var rest := Split(s[1..]);
      [[s[0]] + rest[0]] + rest[1..]
  }

  predicate IsDot(s: string) {
    LowerAll(s) == "." || LowerAll(s) == "%2e"
  }

  predicate IsDoubleDot(s: string) {
    LowerAll(s) in {"..", ".%2e", "%2e.", "%2e%2e"}
  }

  predicate IsDots(s: string) {
    IsDot(s) || IsDoubleDot(s)
  }

  /** Dot segments vanish, double ones together with the segment before; at the end they leave an empty one. */
  function Resolved(path: seq<string>, segments: seq<string>): (r: seq<string>)
    ensures segments != [] ==> r != []
    ensures forall x :: x in r ==> x in path || (x in segments && !IsDots(x)) || x == ""
    decreases segments
  {
    if segments == [] then path
    else
      var end := if |segments| == 1 then [""] else [];
      if IsDoubleDot(segments[0]) then Resolved(DropLast(path) + end, segments[1..])
      else if IsDot(segments[0]) then Resolved(path + end, segments[1..])
      else Resolved(path + [segments[0]], segments[1..])
  }

  function EncodedSegments(parser: Parser, segments: seq<string>): (r: seq<string>)
    ensures |r| == |segments| && forall i :: 0 <= i < |r| ==> r[i] == EncodedText(parser, segments[i])
  {
    seq(|segments|, i requires 0 <= i < |segments| => EncodedText(parser, segments[i]))
  }

  /** Every segment with a slash before it. */
  function Joined(segments: seq<string>): (r: string)
    ensures segments != [] ==> r != "" && r[0] == '/'
  {
    if segments == [] then "" else "/" + segments[0] + Joined(segments[1..])
  }

  /** The path of a URL from its text, of which the first slash is not part. */
  function Serialized(parser: Parser, text: string): (r: string)
    ensures r != "" && r[0] == '/'
  {
    Joined(Resolved([], EncodedSegments(parser, Split(text))))
  }

  /** The `pathname` of a URL; None when the parser throws. */
  function Pathname(parser: Parser, url: string): Option<string> {
    match Parse(parser, url)
    case Throws => None
    case Other => parser.otherScheme(url)
    case Path(text) => Some(Serialized(parser, if text == "" then "" else text[1..]))
  }

  // ---------------------------------------------------------------------------------------
  // Keys and URLs
  // ---------------------------------------------------------------------------------------

  function GetFileUrl(domain: string, key: string): string {
    domain + "/" + key
  }

  /** The path without its first character, or the text itself if it is no URL. */
  function ExtractKeyFromUrl(parser: Parser, url: string): string {
    match Pathname(parser, url)
    case Some(path) => if path == "" then "" else path[1..]
    case None => url
  }

  /** The key that a delete finds for an image that was stored under `key`. */
  function ReadBack(site: Site, key: string): string {
    ExtractKeyFromUrl(site.parser, GetFileUrl(site.domain, key))
  }

  /** The domain is `http://host` or `https://host` with a host that the parser accepts, and nothing after it. */
  predicate IsOrigin(site: Site, scheme: string, host: string) {
    && site.domain == scheme + "://" + host
    && IsScheme(scheme) && LowerAll(scheme) in {"http", "https"}
    && host != "" && site.parser.accepts(host)
    && (forall c :: c in host ==> c !in AUTHORITY_ENDS && !IsTabOrNewline(c))
  }

  /** Characters that the parser neither drops, encodes, nor takes for a separator. */
  predicate IsSafeText(parser: Parser, s: string) {
    forall c :: c in s ==> !IsEncoded(parser, c) && c != '\\'
  }

  predicate NoDots(segments: seq<string>) {
    forall x :: x in segments ==> !IsDots(x)
  }

  /** Safe characters only, and no segment that means "here" or "one up". */
  predicate IsSafeKey(parser: Parser, key: string) {
    IsSafeText(parser, key) && NoDots(Split(key))
  }

  // ---------------------------------------------------------------------------------------
  // What the tables of the parser mean
  // ---------------------------------------------------------------------------------------

  function HexValue(c: char): int {
    if c <= '9' then c as int - '0' as int else c as int - 'A' as int + 10
  }

  /** The bytes that `%XX%XX...` stands for. */
  function Bytes(s: string): seq<int> {
    if |s| < 3 || s[0] != '%' then [] else [16 * HexValue(s[1]) + HexValue(s[2])] + Bytes(s[3..])
  }

  predicate IsTail(b: int) {
    0x80 <= b < 0xC0
  }

  /** UTF-8 (RFC 3629, section 3): the bytes are the one form of this scalar value. */
  predicate IsUtf8(b: seq<int>, n: int) {
    || (|b| == 1 && b[0] == n < 0x80)
    || (|b| == 2 && 0xC0 <= b[0] < 0xE0 && IsTail(b[1]) && 0x80 <= n == 64 * (b[0] - 0xC0) + (b[1] - 0x80))
    || (|b| == 3 && 0xE0 <= b[0] < 0xF0 && IsTail(b[1]) && IsTail(b[2])
        && 0x800 <= n == 4096 * (b[0] - 0xE0) + 64 * (b[1] - 0x80) + (b[2] - 0x80))
    || (|b| == 4 && 0xF0 <= b[0] < 0xF8 && IsTail(b[1]) && IsTail(b[2]) && IsTail(b[3])
        && 0x1_0000 <= n == 262144 * (b[0] - 0xF0) + 4096 * (b[1] - 0x80) + 64 * (b[2] - 0x80) + (b[3] - 0x80))
  }

  lemma PercentReads(byte: int)
    requires 0 <= byte < 256
    ensures var r := Percent(byte); |r| == 3 && r[0] == '%' && 16 * HexValue(r[1]) + HexValue(r[2]) == byte
  {
    assert HexValue(HexDigit(byte / 16)) == byte / 16 && HexValue(HexDigit(byte % 16)) == byte % 16;
  }

  lemma {:induction false} BytesEscaped(bytes: seq<int>)
    requires forall b :: b in bytes ==> 0 <= b < 256
    ensures Bytes(Escaped(bytes)) == bytes && |Escaped(bytes)| == 3 * |bytes|
  {
    if bytes != [] {
      assert bytes[0] in bytes && forall b :: b in bytes[1..] ==> b in bytes;
      PercentReads(bytes[0]);
      BytesEscaped(bytes[1..]);
      assert Escaped(bytes)[3..] == Escaped(bytes[1..]);
    }
  }

  lemma Utf8Two(n: int)
    requires 0x80 <= n < 0x800
    ensures IsUtf8([0xC0 + n / 0x40, 0x80 + n % 0x40], n)
  {}

  lemma Utf8Three(n: int)
    requires 0x800 <= n < 0x1_0000
    ensures IsUtf8([0xE0 + n / 0x1000, 0x80 + n / 0x40 % 0x40, 0x80 + n % 0x40], n)
  {
    assert n / 0x1000 == n / 0x40 / 0x40;
  }

  lemma Utf8Four(n: int)
    requires 0x1_0000 <= n < 0x11_0000
    ensures IsUtf8([0xF0 + n / 0x4_0000, 0x80 + n / 0x1000 % 0x40, 0x80 + n / 0x40 % 0x40, 0x80 + n % 0x40], n)
  {
    assert n / 0x1000 == n / 0x40 / 0x40 && n / 0x4_0000 == n / 0x1000 / 0x40;
  }

  lemma Utf8Is(n: int)
    requires 0 <= n < 0x11_0000
    ensures IsUtf8(Utf8(n), n)
  {
    if n < 0x80 {
    } else if n < 0x800 {
      Utf8Two(n);
    } else if n < 0x1_0000 {
      Utf8Three(n);
    } else {
      Utf8Four(n);
    }
  }

  /** An encoded character is its UTF-8 bytes, each as a percent sign and two upper-case hexadecimal digits. */
  lemma EncodedIsUtf8(c: char)
    ensures IsUtf8(Bytes(Encoded(c)), c as int) && |Encoded(c)| == 3 * |Bytes(Encoded(c))|
  {
    Utf8Is(c as int);
    BytesEscaped(Utf8(c as int));
  }

  predicate IsLetterOrDigit(c: char) {
    'a' <= c <= 'z' || 'A' <= c <= 'Z' || '0' <= c <= '9'
  }

  /** The characters that paths keep as they are, listed the other way round. */
  lemma KeptCharacters(parser: Parser, c: char)
    ensures !IsEncoded(parser, c)
        <==> || IsLetterOrDigit(c)
             || c in {'!', '$', '%', '&', '\'', '(', ')', '*', '+', ',', '-', '.', '/', ':', ';', '=', '@', '[', '\\',
                      ']', '_', '|', '~'}
             || (c == '^' && !parser.encodesCaret)
  {}

  /** The spellings of "here" and of "one up". */
  lemma DotSpellings(s: string)
    ensures IsDot(s) <==> s in {".", "%2e", "%2E"}
    ensures IsDoubleDot(s)
        <==> s in {"..", ".%2e", ".%2E", "%2e.", "%2E.", "%2e%2e", "%2e%2E", "%2E%2e", "%2E%2E"}
  {
    var r := LowerAll(s);
    assert forall c :: Lower(c) == '.' <==> c == '.';
    assert forall c :: Lower(c) == '%' <==> c == '%';
    assert forall c :: Lower(c) == '2' <==> c == '2';
    assert forall c :: Lower(c) == 'e' <==> c == 'e' || c == 'E';
    if |s| == 1 { assert s == [s[0]] && r == [r[0]]; }
    if |s| == 2 { assert s == [s[0], s[1]] && r == [r[0], r[1]]; }
    if |s| == 3 { assert s == [s[0], s[1], s[2]] && r == [r[0], r[1], r[2]]; }
    if |s| == 4 { assert s == [s[0], s[1], s[2], s[3]] && r == [r[0], r[1], r[2], r[3]]; }
    if |s| == 6 {
      assert s == [s[0], s[1], s[2], s[3], s[4], s[5]] && r == [r[0], r[1], r[2], r[3], r[4], r[5]];
    }
  }

  // ---------------------------------------------------------------------------------------
  // What the parser leaves alone
  // ---------------------------------------------------------------------------------------

  lemma Assoc(a: string, b: string, c: string)
    ensures a + b + c == a + (b + c)
  {}

  lemma {:induction false} UntilPlain(a: string, b: string, stop: set<char>)
    requires forall c :: c in a ==> c !in stop
    ensures Until(a + b, stop) == a + Until(b, stop)
  {
    if a == "" {
      assert a + b == b;
    } else {
      assert (a + b)[1..] == a[1..] + b && (a + b)[0] == a[0] && a[0] in a;
      UntilPlain(a[1..], b, stop);
      Assoc([a[0]], a[1..], Until(b, stop));
      assert [a[0]] + a[1..] == a;
    }
  }

  lemma UntilIs(p: string, rest: string, stop: set<char>)
    requires (forall c :: c in p ==> c !in stop) && (rest == "" || rest[0] in stop)
    ensures Until(p + rest, stop) == p
  {
    UntilPlain(p, rest, stop);
    assert p + "" == p;
  }

  lemma {:induction false} TrimEndConcat(a: string, b: string)
    requires a != "" && !IsControlOrSpace(a[|a| - 1])
    ensures TrimEnd(a + b) == a + TrimEnd(b)
    decreases |b|
  {
    if b == "" {
      assert a + b == a;
    } else {
      assert (a + b)[..|a + b| - 1] == a + b[..|b| - 1];
      TrimEndConcat(a, b[..|b| - 1]);
    }
  }

  lemma {:induction false} WithoutNewlinesConcat(a: string, b: string)
    ensures WithoutNewlines(a + b) == WithoutNewlines(a) + WithoutNewlines(b)
  {
    if a == "" {
      assert a + b == b;
    } else {
      assert (a + b)[1..] == a[1..] + b && (a + b)[0] == a[0];
      WithoutNewlinesConcat(a[1..], b);
      var head := if IsTabOrNewline(a[0]) then "" else [a[0]];
      assert head + (WithoutNewlines(a[1..]) + WithoutNewlines(b))
          == (head + WithoutNewlines(a[1..])) + WithoutNewlines(b);
    }
  }

  lemma {:induction false} WithoutNewlinesKeeps(s: string, c: char)
    requires c in WithoutNewlines(s)
    ensures c in s
  {
    if !(!IsTabOrNewline(s[0]) && c == s[0]) {
      WithoutNewlinesKeeps(s[1..], c);
    }
  }

  lemma {:induction false} NoNewlines(s: string)
    requires forall c :: c in s ==> !IsTabOrNewline(c)
    ensures WithoutNewlines(s) == s
  {
    if s != "" {
      assert s[0] in s && s == [s[0]] + s[1..];
      NoNewlines(s[1..]);
    }
  }

  /** What remains of the key when its URL has been stripped. */
  function StrippedKey(key: string): string {
    WithoutNewlines(TrimEnd(key))
  }

  lemma StripUrl(site: Site, scheme: string, host: string, key: string)
    requires IsOrigin(site, scheme, host)
    ensures Stripped(GetFileUrl(site.domain, key)) == scheme + (":" + ("//" + (host + ("/" + StrippedKey(key)))))
  {
    var start := site.domain + "/";
    assert start == scheme + (":" + ("//" + (host + "/")));
    forall c | c in start ensures !IsTabOrNewline(c) {
      assert c in scheme || c == ':' || c == '/' || c in host;
    }
    assert start[0] == scheme[0] && scheme[0] in scheme;
    StripStart(start, key);
  }

  lemma StripStart(start: string, key: string)
    requires start != "" && !IsControlOrSpace(start[0]) && !IsControlOrSpace(start[|start| - 1])
    requires forall c :: c in start ==> !IsTabOrNewline(c)
    ensures Stripped(start + key) == start + StrippedKey(key)
  {
    assert TrimStart(start + key) == start + key;
    TrimEndConcat(start, key);
    WithoutNewlinesConcat(start, TrimEnd(key));
    NoNewlines(start);
  }

  lemma ParseScheme(parser: Parser, scheme: string, rest: string, url: string)
    requires IsScheme(scheme) && LowerAll(scheme) in {"http", "https"}
    requires Stripped(url) == scheme + (":" + rest)
    ensures Parse(parser, url) == ParseRest(parser, SkipSlashes(rest))
  {
    assert ':' !in scheme;
    SchemeIsCut(scheme, rest);
  }

  lemma SchemeIsCut(scheme: string, rest: string)
    requires ':' !in scheme
    ensures Until(scheme + (":" + rest), {':'}) == scheme && (scheme + (":" + rest))[|scheme| + 1..] == rest
  {
    assert (":" + rest)[0] == ':';
    UntilIs(scheme, ":" + rest, {':'});
    Assoc(scheme, ":", rest);
  }

  /** On an origin the path is a slash and what is left of the key up to a query or fragment. */
  lemma ParseUrl(site: Site, scheme: string, host: string, key: string)
    requires IsOrigin(site, scheme, host)
    ensures Parse(site.parser, GetFileUrl(site.domain, key)) == Path("/" + Until(StrippedKey(key), PATH_ENDS))
  {
    var left := StrippedKey(key);
    StripUrl(site, scheme, host, key);
    ParseScheme(site.parser, scheme, "//" + (host + ("/" + left)), GetFileUrl(site.domain, key));
    HostIsCut(host, left);
    assert ("/" + left)[1..] == left;
  }

  lemma HostIsCut(host: string, left: string)
    requires host != "" && forall c :: c in host ==> c !in AUTHORITY_ENDS
    ensures var rest := SkipSlashes("//" + (host + ("/" + left)));
            Until(rest, AUTHORITY_ENDS) == host && rest[|host|..] == "/" + left
  {
    var rest := host + ("/" + left);
    assert rest[0] == host[0] && host[0] in host;
    SkipTwo(rest);
    UntilIs(host, "/" + left, AUTHORITY_ENDS);
    assert rest[|host|..] == "/" + left;
  }

  lemma SkipTwo(rest: string)
    requires rest != "" && !IsSlash(rest[0])
    ensures SkipSlashes("//" + rest) == rest
  {
    assert ("//" + rest)[1..] == "/" + rest && ("/" + rest)[1..] == rest;
    assert SkipSlashes("//" + rest) == SkipSlashes("/" + rest);
  }

  lemma CutAfterPlain(a: string, b: string)
    requires a != "" && !IsControlOrSpace(a[|a| - 1]) && forall c :: c in a ==> c !in PATH_ENDS && !IsTabOrNewline(c)
    ensures Until(StrippedKey(a + b), PATH_ENDS) == a + Until(StrippedKey(b), PATH_ENDS)
  {
    TrimEndConcat(a, b);
    WithoutNewlinesConcat(a, TrimEnd(b));
    NoNewlines(a);
    UntilPlain(a, StrippedKey(b), PATH_ENDS);
  }

  /** What comes back on an origin. */
  function Result(parser: Parser, key: string): string {
    Serialized(parser, Until(StrippedKey(key), PATH_ENDS))[1..]
  }

  lemma ReadBackIs(site: Site, scheme: string, host: string, key: string)
    requires IsOrigin(site, scheme, host)
    ensures ReadBack(site, key) == Result(site.parser, key)
  {
    ParseUrl(site, scheme, host, key);
    var text := Until(StrippedKey(key), PATH_ENDS);
    assert ("/" + text)[1..] == text;
  }

  // ---------------------------------------------------------------------------------------
  // Safe keys come back, and whatever comes back is safe
  // ---------------------------------------------------------------------------------------

  lemma {:induction false} StripSafe(parser: Parser, s: string)
    requires IsSafeText(parser, s)
    ensures WithoutNewlines(s) == s && EncodedText(parser, s) == s
  {
    if s != "" {
      assert s[0] in s && s == [s[0]] + s[1..];
      StripSafe(parser, s[1..]);
    }
  }

  lemma {:induction false} JoinSplit(s: string)
    requires '\\' !in s
    ensures Joined(Split(s)) == "/" + s
  {
    if s != "" {
      JoinSplit(s[1..]);
      var rest := Split(s[1..]);
      if s[0] == '/' {
        assert ([""] + rest)[1..] == rest;
        assert "/" + "" + ("/" + s[1..]) == "/" + s;
      } else {
        var split := [[s[0]] + rest[0]] + rest[1..];
        assert split[1..] == rest[1..];
        assert "/" + rest[0] + Joined(rest[1..]) == "/" + s[1..];
        assert rest[0] + Joined(rest[1..]) == s[1..] by {
          assert ("/" + rest[0] + Joined(rest[1..]))[1..] == rest[0] + Joined(rest[1..]);
          assert ("/" + s[1..])[1..] == s[1..];
        }
        assert "/" + ([s[0]] + rest[0]) + Joined(rest[1..]) == "/" + ([s[0]] + (rest[0] + Joined(rest[1..])));
        assert [s[0]] + s[1..] == s;
      }
    }
  }

  /** A piece that does not contain a slash, before a text. */
  lemma {:induction false} SplitAfter(a: string, s: string)
    requires forall c :: c in a ==> !IsSlash(c)
    ensures Split(a + s) == [a + Split(s)[0]] + Split(s)[1..]
  {
    if a == "" {
      assert a + s == s && a + Split(s)[0] == Split(s)[0];
    } else {
      assert (a + s)[1..] == a[1..] + s && (a + s)[0] == a[0] && a[0] in a;
      SplitAfter(a[1..], s);
      assert [a[0]] + (a[1..] + Split(s)[0]) == a + Split(s)[0];
    }
  }

  lemma {:induction false} SplitJoin(segments: seq<string>)
    requires segments != [] && forall x, c :: x in segments && c in x ==> !IsSlash(c)
    ensures Split(Joined(segments)[1..]) == segments
  {
    var first, tail := segments[0], segments[1..];
    assert Joined(segments) == "/" + (first + Joined(tail));
    assert Joined(segments)[1..] == first + Joined(tail);
    assert first in segments;
    SplitAfter(first, Joined(tail));
    if tail == [] {
      assert Split("") == [""] && first + "" == first && segments == [first];
    } else {
      forall x, c | x in tail && c in x ensures !IsSlash(c) { assert x in segments; }
      SplitJoin(tail);
      assert Split(Joined(tail)) == [""] + tail;
      assert ([""] + tail)[1..] == tail && first + "" == first && segments == [first] + tail;
    }
  }

  lemma {:induction false} ResolveNoDots(path: seq<string>, segments: seq<string>)
    requires NoDots(segments)
    ensures Resolved(path, segments) == path + segments
    decreases segments
  {
    if segments == [] {
      assert path + segments == path;
    } else {
      assert segments[0] in segments;
      forall x | x in segments[1..] ensures !IsDots(x) { assert x in segments; }
      ResolveNoDots(path + [segments[0]], segments[1..]);
      assert path + [segments[0]] + segments[1..] == path + segments;
    }
  }

  lemma {:induction false} SafePiece(parser: Parser, s: string, x: string)
    requires IsSafeText(parser, s) && x in Split(s)
    ensures IsSafeText(parser, x)
  {
    if s != "" {
      assert s[0] in s;
      var rest := Split(s[1..]);
      if IsSlash(s[0]) || x in rest[1..] {
        if x != "" { SafePiece(parser, s[1..], x); }
      } else {
        SafePiece(parser, s[1..], rest[0]);
      }
    }
  }

  /** Nothing is stripped or cut off a safe text. */
  lemma SafeSeen(parser: Parser, s: string)
    requires IsSafeText(parser, s)
    ensures Until(StrippedKey(s), PATH_ENDS) == s
  {
    if s != "" { assert s[|s| - 1] in s; }
    assert TrimEnd(s) == s;
    StripSafe(parser, s);
    UntilIs(s, "", PATH_ENDS);
    assert s + "" == s;
  }

  /** A safe key passes through unchanged. */
  lemma SafeComesBack(parser: Parser, key: string)
    requires IsSafeKey(parser, key)
    ensures Result(parser, key) == key
  {
    SafeSeen(parser, key);
    var segments := Split(key);
    SafeSegments(parser, key);
    ResolveNoDots([], segments);
    assert [] + segments == segments;
    JoinSplit(key);
    assert ("/" + key)[1..] == key;
  }

  lemma {:induction false} JoinedSafe(parser: Parser, segments: seq<string>)
    requires forall x, c :: x in segments && c in x ==> !IsEncoded(parser, c) && c != '\\'
    ensures IsSafeText(parser, Joined(segments))
  {
    if segments != [] {
      assert segments[0] in segments;
      forall x, c | x in segments[1..] && c in x ensures !IsEncoded(parser, c) && c != '\\' { assert x in segments; }
      JoinedSafe(parser, segments[1..]);
    }
  }

  lemma {:induction false} SplitPiece(s: string, x: string, c: char)
    requires x in Split(s) && c in x
    ensures !IsSlash(c)
  {
    if s != "" {
      var rest := Split(s[1..]);
      if IsSlash(s[0]) || x in rest[1..] {
        SplitPiece(s[1..], x, c);
      } else if c != s[0] {
        assert x == [s[0]] + rest[0] && c in rest[0];
        SplitPiece(s[1..], rest[0], c);
      }
    }
  }

  lemma {:induction false} EncodedTextHas(parser: Parser, s: string, c: char)
    requires c in EncodedText(parser, s)
    ensures !IsEncoded(parser, c) && (c in s || IsPercentOrHex(c))
  {
    var head := if IsEncoded(parser, s[0]) then Encoded(s[0]) else [s[0]];
    if c !in head {
      EncodedTextHas(parser, s[1..], c);
    }
  }

  lemma EncodedSegment(parser: Parser, text: string, x: string, c: char)
    requires x in EncodedSegments(parser, Split(text)) && c in x
    ensures !IsEncoded(parser, c) && !IsSlash(c)
  {
    var segments := Split(text);
    var i :| 0 <= i < |segments| && EncodedText(parser, segments[i]) == x;
    EncodedTextHas(parser, segments[i], c);
    if c in segments[i] { SplitPiece(text, segments[i], c); }
  }

  /** Whatever comes back is a safe key. */
  lemma ResultIsSafe(parser: Parser, key: string)
    ensures IsSafeKey(parser, Result(parser, key))
  {
    var text := Until(StrippedKey(key), PATH_ENDS);
    var path := Resolved([], EncodedSegments(parser, Split(text)));
    forall x, c | x in path && c in x
      ensures !IsEncoded(parser, c) && !IsSlash(c)
    {
      EncodedSegment(parser, text, x, c);
    }
    PathIsSafe(parser, path);
  }

  lemma PathIsSafe(parser: Parser, path: seq<string>)
    requires path != [] && forall x, c :: x in path && c in x ==> !IsEncoded(parser, c) && !IsSlash(c)
    requires forall x :: x in path ==> x == "" || !IsDots(x)
    ensures IsSafeKey(parser, Joined(path)[1..])
  {
    JoinedSafe(parser, path);
    SplitJoin(path);
    assert forall c :: c in Joined(path)[1..] ==> c in Joined(path);
    assert |LowerAll("")| == 0;
  }

  /** On an origin, a key comes back from its URL exactly when it is safe. */
  lemma RoundTripIff(site: Site, scheme: string, host: string, key: string)
    requires IsOrigin(site, scheme, host)
    ensures ReadBack(site, key) == key <==> IsSafeKey(site.parser, key)
    ensures IsSafeKey(site.parser, ReadBack(site, key))
  {
    ReadBackIs(site, scheme, host, key);
    ResultIsSafe(site.parser, key);
    if IsSafeKey(site.parser, key) {
      SafeComesBack(site.parser, key);
    }
  }

  // ---------------------------------------------------------------------------------------
  // What the other keys come back as
  // ---------------------------------------------------------------------------------------

  lemma LastIsPlain(parser: Parser, s: string)
    requires IsSafeText(parser, s)
    ensures s != "" ==> !IsControlOrSpace(s[|s| - 1])
    ensures forall c :: c in s ==> c !in PATH_ENDS && !IsTabOrNewline(c)
  {
    if s != "" { assert s[|s| - 1] in s; }
  }

  /** From a question mark or a hash on, everything is lost. */
  lemma CutAtQuery(parser: Parser, key: string, c: char, rest: string)
    requires IsSafeKey(parser, key) && key != "" && c in {'?', '#'}
    ensures Result(parser, key + ([c] + rest)) == key
  {
    LastIsPlain(parser, key);
    CutAfterPlain(key, [c] + rest);
    TrimEndConcat([c], rest);
    WithoutNewlinesConcat([c], TrimEnd(rest));
    NoNewlines([c]);
    assert StrippedKey([c] + rest)[0] == c;
    assert key + "" == key;
    SafeSeen(parser, key);
    SafeComesBack(parser, key);
  }

  /** White space at the end vanishes. */
  lemma SpaceAtEndVanishes(parser: Parser, key: string, c: char)
    requires c <= ' '
    ensures Result(parser, key + [c]) == Result(parser, key)
  {
    assert (key + [c])[..|key + [c]| - 1] == key;
  }

  lemma StrippedIs(a: string, b: string)
    requires b != "" && b[|b| - 1] > ' '
    ensures StrippedKey(a + b) == WithoutNewlines(a) + WithoutNewlines(b)
  {
    assert (a + b)[|a + b| - 1] == b[|b| - 1];
    WithoutNewlinesConcat(a, b);
  }

  /** Tabs and newlines vanish wherever they are. */
  lemma NewlineVanishes(parser: Parser, a: string, c: char, b: string)
    requires c in {'\t', '\n', '\r'} && b != "" && b[|b| - 1] > ' '
    ensures Result(parser, a + [c] + b) == Result(parser, a + b)
  {
    assert WithoutNewlines([c]) == "" && WithoutNewlines(a) + "" == WithoutNewlines(a);
    WithoutNewlinesConcat(a, [c]);
    StrippedIs(a + [c], b);
    StrippedIs(a, b);
  }

  lemma {:induction false} SplitSlash(a: string, b: string)
    ensures Split(a + ("\\" + b)) == Split(a + ("/" + b))
  {
    if a == "" {
      assert ("\\" + b)[1..] == b == ("/" + b)[1..] && a + ("\\" + b) == "\\" + b && a + ("/" + b) == "/" + b;
    } else {
      assert (a + ("\\" + b))[1..] == a[1..] + ("\\" + b) && (a + ("/" + b))[1..] == a[1..] + ("/" + b);
      SplitSlash(a[1..], b);
    }
  }

  lemma SeenAround(a: string, slash: char, b: string)
    requires (forall c :: c in a ==> c !in PATH_ENDS && !IsTabOrNewline(c)) && IsSlash(slash)
    ensures Until(StrippedKey(a + ([slash] + b)), PATH_ENDS) == a + ([slash] + Until(StrippedKey(b), PATH_ENDS))
  {
    CutAfterPlain(a + [slash], b);
    Assoc(a, [slash], b);
    Assoc(a, [slash], Until(StrippedKey(b), PATH_ENDS));
  }

  /** A backslash comes back as a slash. */
  lemma BackslashIsSlash(parser: Parser, a: string, b: string)
    requires forall c :: c in a ==> c !in PATH_ENDS && !IsTabOrNewline(c)
    ensures Result(parser, a + ("\\" + b)) == Result(parser, a + ("/" + b))
  {
    SeenAround(a, '\\', b);
    SeenAround(a, '/', b);
    SplitSlash(a, Until(StrippedKey(b), PATH_ENDS));
  }

  lemma SplitOne(s: string)
    requires forall c :: c in s ==> !IsSlash(c)
    ensures Split(s) == [s]
  {
    SplitAfter(s, "");
    assert s + "" == s;
  }

  function Around(a: string, dots: string, b: string): string {
    a + ("/" + (dots + ("/" + b)))
  }

  lemma AroundSafe(parser: Parser, a: string, dots: string, b: string)
    requires IsSafeText(parser, a) && IsSafeText(parser, b) && IsDots(dots)
    ensures IsSafeText(parser, Around(a, dots, b)) && '/' !in dots
  {
    DotSpellings(dots);
    forall c | c in Around(a, dots, b) ensures c in a || c == '/' || c in dots || c in b {}
  }

  lemma AroundSplit(a: string, dots: string, b: string)
    requires forall c :: c in a || c in dots || c in b ==> !IsSlash(c)
    ensures Split(Around(a, dots, b)) == [a, dots, b]
  {
    SplitOne(a);
    SplitOne(dots);
    SplitOne(b);
    SplitBoth(dots, b);
    SplitBoth(a, dots + ("/" + b));
  }

  lemma DotsResolved(path: seq<string>, dots: string, b: string)
    requires !IsDots(b) && IsDots(dots)
    ensures Resolved(path, [dots, b]) == (if IsDoubleDot(dots) then DropLast(path) else path) + [b]
  {
    ResolvedConcat(path, [dots], [b]);
    assert [dots] + [b] == [dots, b] && [dots][1..] == [];
    ResolveNoDots(Kept(path, [dots]), [b]);
  }

  lemma ThreeResolved(a: string, dots: string, b: string)
    requires !IsDots(a) && !IsDots(b) && IsDots(dots)
    ensures Joined(Resolved([], [a, dots, b]))[1..] == if IsDoubleDot(dots) then b else a + ("/" + b)
  {
    ResolvedConcat([], [a], [dots, b]);
    KeptNoDots([], [a]);
    assert [a] + [dots, b] == [a, dots, b] && [] + [a] == [a];
    DotsResolved([a], dots, b);
    if IsDoubleDot(dots) {
      assert DropLast([a]) + [b] == [b];
      JoinedOne(b);
    } else {
      JoinedTwo(a, b);
      assert [a] + [b] == [a, b];
    }
  }

  lemma JoinedTwo(a: string, b: string)
    ensures Joined([a, b])[1..] == a + ("/" + b)
  {
    JoinedOne(b);
    assert [a, b][1..] == [b];
    Assoc("/", a, "/" + b);
  }

  /** A dot segment removes itself, and one that means "one up" also the segment before it. */
  lemma DotsVanish(parser: Parser, a: string, dots: string, b: string)
    requires IsSafeKey(parser, a) && IsSafeKey(parser, b) && '/' !in a && '/' !in b && IsDots(dots)
    ensures Result(parser, Around(a, dots, b)) == if IsDoubleDot(dots) then b else a + ("/" + b)
  {
    AroundSafe(parser, a, dots, b);
    DotSpellings(dots);
    AroundSplit(a, dots, b);
    SafeSeen(parser, Around(a, dots, b));
    SafeSegments(parser, Around(a, dots, b));
    SplitOne(a);
    SplitOne(b);
    assert a in Split(a) && b in Split(b);
    ThreeResolved(a, dots, b);
  }

  lemma JoinedOne(x: string)
    ensures Joined([x]) == "/" + x && Joined([x])[1..] == x
  {
    assert [x][1..] == [];
  }

  lemma EncodedIsNoDot(c: char)
    requires c != '.'
    ensures |Encoded(c)| >= 3 && Encoded(c)[0] == '%' && !(Encoded(c)[1] == '2' && Encoded(c)[2] in {'e', 'E'})
  {
    var bytes := Utf8(c as int);
    Utf8Is(c as int);
    PercentReads(bytes[0]);
    assert Encoded(c) == Percent(bytes[0]) + Escaped(bytes[1..]);
    assert bytes[0] != 0x2E;
  }

  lemma PercentIsNoDot(a: string, c: char, b: string)
    requires c != '.'
    ensures !IsDots(a + Encoded(c) + b)
  {
    var s, k := a + Encoded(c) + b, |a|;
    EncodedIsNoDot(c);
    assert s[k] == Encoded(c)[0] && s[k + 1] == Encoded(c)[1] && s[k + 2] == Encoded(c)[2];
    DotSpellings(s);
  }

  lemma OneSegment(parser: Parser, text: string)
    requires (forall c :: c in text ==> !IsSlash(c)) && !IsDots(EncodedText(parser, text))
    ensures Serialized(parser, text)[1..] == EncodedText(parser, text)
  {
    var r := EncodedText(parser, text);
    SplitOne(text);
    assert EncodedSegments(parser, [text]) == [r];
    ResolveNoDots([], [r]);
    assert [] + [r] == [r];
    JoinedOne(r);
  }

  lemma EncodedMiddle(parser: Parser, a: string, c: char, b: string)
    requires IsSafeText(parser, a) && IsSafeText(parser, b) && IsEncoded(parser, c)
    ensures EncodedText(parser, a + [c] + b) == a + Encoded(c) + b
  {
    Assoc(a, [c], b);
    EncodedConcat(parser, a, [c] + b);
    StripSafe(parser, b);
    assert ([c] + b)[1..] == b && EncodedText(parser, [c] + b) == Encoded(c) + b;
    Assoc(a, Encoded(c), b);
  }

  lemma PlainSeen(text: string)
    requires text != "" && text[|text| - 1] > ' ' && forall c :: c in text ==> c !in {'?', '#', '\t', '\n', '\r'}
    ensures Until(StrippedKey(text), PATH_ENDS) == text
  {
    NoNewlines(text);
    UntilIs(text, "", PATH_ENDS);
    assert text + "" == text;
  }

  lemma MiddleChars(parser: Parser, a: string, c: char, b: string)
    requires IsSafeText(parser, a) && IsSafeText(parser, b) && '/' !in a && '/' !in b && b != ""
    requires IsEncoded(parser, c) && c !in {'?', '#', '\t', '\n', '\r'}
    ensures var key := a + [c] + b;
            && key[|key| - 1] > ' '
            && (forall d :: d in key ==> d !in {'?', '#', '\t', '\n', '\r'} && !IsSlash(d))
  {
    var key := a + [c] + b;
    assert key[|key| - 1] == b[|b| - 1] && b[|b| - 1] in b;
    forall d | d in key ensures d in a || d == c || d in b {}
  }

  /** Any other character that does not stay as it is comes back encoded, and the rest as it was. */
  lemma EncodedInPlace(parser: Parser, a: string, c: char, b: string)
    requires IsSafeText(parser, a) && IsSafeText(parser, b) && '/' !in a && '/' !in b && b != ""
    requires IsEncoded(parser, c) && c !in {'?', '#', '\t', '\n', '\r'}
    ensures Result(parser, a + [c] + b) == a + Encoded(c) + b
  {
    MiddleChars(parser, a, c, b);
    PlainSeen(a + [c] + b);
    PercentIsNoDot(a, c, b);
    EncodedMiddle(parser, a, c, b);
    OneSegment(parser, a + [c] + b);
  }

  /** What a delete schedules: the keys read back from the URLs of its media rows. */
  function ReadBackAll(back: string -> string, keys: set<string>): set<string> {
    set k | k in keys :: back(k)
  }

  function BackOf(site: Site): string -> string {
    k => ReadBack(site, k)
  }

  /** The keys read back are the keys stored, as sets, exactly when all stored ones are safe. */
  lemma ScheduledKeysIff(site: Site, scheme: string, host: string, keys: set<string>)
    requires IsOrigin(site, scheme, host)
    ensures ReadBackAll(BackOf(site), keys) == keys <==> forall k :: k in keys ==> IsSafeKey(site.parser, k)
  {
    forall k | k in keys
      ensures ReadBack(site, k) == k <==> IsSafeKey(site.parser, k)
      ensures IsSafeKey(site.parser, ReadBack(site, k))
    {
      RoundTripIff(site, scheme, host, k);
    }
    if forall k :: k in keys ==> IsSafeKey(site.parser, k) {
      forall k | k in keys ensures k in ReadBackAll(BackOf(site), keys) { assert ReadBack(site, k) == k; }
    }
  }

  // ---------------------------------------------------------------------------------------
  // A domain with a path
  // ---------------------------------------------------------------------------------------

  /** What dot segments leave of pieces that are not the last. */
  function Kept(path: seq<string>, segments: seq<string>): seq<string>
    decreases segments
  {
    if segments == [] then path
    else if IsDoubleDot(segments[0]) then Kept(DropLast(path), segments[1..])
    else if IsDot(segments[0]) then Kept(path, segments[1..])
    else Kept(path + [segments[0]], segments[1..])
  }

  lemma {:induction false} ResolvedConcat(path: seq<string>, a: seq<string>, b: seq<string>)
    requires b != []
    ensures Resolved(path, a + b) == Resolved(Kept(path, a), b)
    decreases a
  {
    if a == [] {
      assert a + b == b;
    } else {
      assert (a + b)[0] == a[0] && (a + b)[1..] == a[1..] + b && |a + b| > 1;
      assert DropLast(path) + [] == DropLast(path) && path + [] == path;
      if IsDoubleDot(a[0]) {
        ResolvedConcat(DropLast(path), a[1..], b);
      } else if IsDot(a[0]) {
        ResolvedConcat(path, a[1..], b);
      } else {
        ResolvedConcat(path + [a[0]], a[1..], b);
      }
    }
  }

  lemma {:induction false} KeptNoDots(path: seq<string>, segments: seq<string>)
    requires NoDots(segments)
    ensures Kept(path, segments) == path + segments
    decreases segments
  {
    if segments == [] {
      assert path + segments == path;
    } else {
      assert segments[0] in segments;
      forall x | x in segments[1..] ensures !IsDots(x) { assert x in segments; }
      KeptNoDots(path + [segments[0]], segments[1..]);
      assert path + [segments[0]] + segments[1..] == path + segments;
    }
  }

  /** The domain is an origin and, after a slash, a path, which may be empty. */
  predicate HasPath(site: Site, scheme: string, host: string, path: string) {
    && site.domain == scheme + "://" + host + "/" + path
    && IsOrigin(Site(scheme + "://" + host, site.parser), scheme, host)
    && (forall c :: c in path ==> c !in PATH_ENDS && !IsTabOrNewline(c))
  }

  /** What the parser makes of the domain's path: nothing, if its segments cancel out. */
  function PathLeft(parser: Parser, path: string): seq<string> {
    Kept([], EncodedSegments(parser, Split(path)))
  }

  lemma ReadBackBehindPath(site: Site, scheme: string, host: string, path: string, key: string)
    requires HasPath(site, scheme, host, path)
    ensures ReadBack(site, key) == Result(site.parser, path + ("/" + key))
  {
    var origin := Site(scheme + "://" + host, site.parser);
    Assoc(origin.domain, "/", path);
    Assoc(origin.domain + "/" + path, "/", key);
    Assoc(origin.domain + "/", path, "/" + key);
    assert GetFileUrl(site.domain, key) == GetFileUrl(origin.domain, path + ("/" + key));
    ReadBackIs(origin, scheme, host, path + ("/" + key));
  }

  /** A safe key behind a path: the parser sees both. */
  lemma SeenBehindPath(parser: Parser, path: string, key: string)
    requires (forall c :: c in path ==> c !in PATH_ENDS && !IsTabOrNewline(c)) && IsSafeKey(parser, key)
    ensures Until(StrippedKey(path + ("/" + key)), PATH_ENDS) == path + ("/" + key)
  {
    Assoc(path, "/", key);
    CutAfterPlain(path + "/", key);
    SafeSeen(parser, key);
  }

  lemma SafeSegments(parser: Parser, key: string)
    requires IsSafeText(parser, key)
    ensures EncodedSegments(parser, Split(key)) == Split(key)
  {
    var segments := Split(key);
    forall i | 0 <= i < |segments|
      ensures EncodedText(parser, segments[i]) == segments[i]
    {
      SafePiece(parser, key, segments[i]);
      StripSafe(parser, segments[i]);
    }
  }

  lemma EncodedBoth(parser: Parser, a: seq<string>, b: seq<string>)
    ensures EncodedSegments(parser, a + b) == EncodedSegments(parser, a) + EncodedSegments(parser, b)
  {}

  /** Behind a path, a safe key comes back with what is left of the path in front. */
  lemma ResultBehindPath(parser: Parser, path: string, key: string)
    requires (forall c :: c in path ==> c !in PATH_ENDS && !IsTabOrNewline(c)) && IsSafeKey(parser, key)
    ensures Split(Result(parser, path + ("/" + key))) == PathLeft(parser, path) + Split(key)
  {
    SeenBehindPath(parser, path, key);
    SplitBoth(path, key);
    EncodedBoth(parser, Split(path), Split(key));
    SafeSegments(parser, key);
    var before := EncodedSegments(parser, Split(path));
    ResolvedConcat([], before, Split(key));
    ResolveNoDots(PathLeft(parser, path), Split(key));
    var all := Resolved([], before + Split(key));
    forall x, c | x in all && c in x
      ensures !IsSlash(c)
    {
      EncodedSegment(parser, path + ("/" + key), x, c);
    }
    SplitJoin(all);
  }

  /**
   On a domain with a path, a key comes back exactly if it is safe and the path cancels out, as "." or "a/.."
   does.
   */
  lemma PathRoundTripIff(site: Site, scheme: string, host: string, path: string, key: string)
    requires HasPath(site, scheme, host, path)
    ensures ReadBack(site, key) == key <==> IsSafeKey(site.parser, key) && PathLeft(site.parser, path) == []
  {
    ReadBackBehindPath(site, scheme, host, path, key);
    ResultIsSafe(site.parser, path + ("/" + key));
    if IsSafeKey(site.parser, key) {
      ResultBehindPath(site.parser, path, key);
      var left := PathLeft(site.parser, path);
      if left == [] {
        assert left + Split(key) == Split(key);
        SplitInjective(Result(site.parser, path + ("/" + key)), key);
      } else {
        assert |left + Split(key)| > |Split(key)|;
      }
    }
  }

  lemma SplitInjective(a: string, b: string)
    requires Split(a) == Split(b) && '\\' !in a && '\\' !in b
    ensures a == b
  {
    JoinSplit(a);
    JoinSplit(b);
    assert ("/" + a)[1..] == a && ("/" + b)[1..] == b;
  }

  /** So on a domain that ends in a slash, or in an ordinary path, no key ever comes back. */
  lemma NoKeyBehindPath(site: Site, scheme: string, host: string, path: string, key: string)
    requires HasPath(site, scheme, host, path) && IsSafeKey(site.parser, path)
    ensures ReadBack(site, key) != key
  {
    PathRoundTripIff(site, scheme, host, path, key);
    SafeSegments(site.parser, path);
    KeptNoDots([], Split(path));
  }

  /** A trailing slash is the empty path. */
  lemma TrailingSlash(parser: Parser)
    ensures IsSafeKey(parser, "")
  {
    assert Split("") == [""] && |LowerAll("")| == 0;
  }

  // ---------------------------------------------------------------------------------------
  // A domain without a scheme
  // ---------------------------------------------------------------------------------------

  lemma {:induction false} TrimStartBeforeSlash(a: string, b: string) returns (i: nat)
    ensures i <= |a| && TrimStart(a + ("/" + b)) == a[i..] + ("/" + b)
  {
    i := 0;
    if a != "" && IsControlOrSpace(a[0]) {
      assert (a + ("/" + b))[1..] == a[1..] + ("/" + b);
      i := TrimStartBeforeSlash(a[1..], b);
      assert a[1..][i..] == a[i + 1..];
      i := i + 1;
    }
  }

  lemma NoColonThrows(parser: Parser, url: string, host: string, left: string)
    requires Stripped(url) == host + "/" + left && ':' !in host
    ensures Pathname(parser, url) == None
  {
    UntilPlain(host + "/", left, {':'});
    var scheme := Until(Stripped(url), {':'});
    assert scheme[|host|] == '/' && scheme[|host|] in scheme;
  }

  /** A domain without a colon never gives a key back: the parser throws, and the whole URL is taken for the key. */
  lemma NoSchemeNoKey(site: Site, key: string)
    requires ':' !in site.domain
    ensures ReadBack(site, key) == GetFileUrl(site.domain, key) != key
  {
    var url := GetFileUrl(site.domain, key);
    assert url == site.domain + ("/" + key);
    var i := TrimStartBeforeSlash(site.domain, key);
    var before := site.domain[i..] + "/";
    assert TrimStart(url) == before + key;
    TrimEndConcat(before, key);
    WithoutNewlinesConcat(before, TrimEnd(key));
    WithoutNewlinesConcat(site.domain[i..], "/");
    var host, left := WithoutNewlines(site.domain[i..]), WithoutNewlines(TrimEnd(key));
    assert WithoutNewlines("/") == "/";
    forall c | c in host ensures c != ':' { WithoutNewlinesKeeps(site.domain[i..], c); }
    NoColonThrows(site.parser, url, host, left);
    assert |url| > |key|;
  }

  // ---------------------------------------------------------------------------------------
  // Generated keys
  // ---------------------------------------------------------------------------------------

  /** The text after the last dot of a file name, or all of it. */
  function Extension(name: string): (r: string)
    ensures '.' !in r
    ensures |r| <= |name| && r == name[|name| - |r|..]
    ensures |r| < |name| ==> name[|name| - |r| - 1] == '.'
  {
    if name == "" then ""
    else if name[|name| - 1] == '.' then ""
    else Extension(name[..|name| - 1]) + [name[|name| - 1]]
  }

  function Stem(timestamp: string, random: string): string {
    timestamp + "-" + random
  }

  /** The key of a file in a folder: what identifies the upload, a dot, and the extension. */
  function KeyOf(folder: string, stem: string, ending: string): string {
    if folder == "" then stem + ("." + ending) else folder + ("/" + (stem + ("." + ending)))
  }

  /** `generateKey`, with the clock and the random number as inputs. */
  function GenerateKey(name: string, folder: string, timestamp: string, random: string): string {
    KeyOf(folder, Stem(timestamp, random), Extension(name))
  }

  lemma {:induction false} ExtensionIs(before: string, ending: string)
    requires '.' !in ending
    ensures Extension(before + ("." + ending)) == ending
  {
    var name := before + ("." + ending);
    if ending == "" {
      assert name[|name| - 1] == '.';
    } else {
      var init, last := ending[..|ending| - 1], ending[|ending| - 1];
      assert name[..|name| - 1] == before + ("." + init) && name[|name| - 1] == last && last in ending;
      ExtensionIs(before, init);
    }
  }

  /** A key names the folder, the time, the random number, and whatever stood after the file name's last dot. */
  lemma GeneratedKeyIs(before: string, ending: string, folder: string, timestamp: string, random: string)
    requires '.' !in ending
    ensures GenerateKey(before + ("." + ending), folder, timestamp, random)
         == (if folder == "" then "" else folder + "/") + timestamp + "-" + random + "." + ending
  {
    ExtensionIs(before, ending);
    Assoc(timestamp + "-" + random, ".", ending);
    Assoc(folder, "/", Stem(timestamp, random) + ("." + ending));
  }

  lemma {:induction false} SplitBoth(a: string, b: string)
    ensures Split(a + ("/" + b)) == Split(a) + Split(b)
  {
    var s := a + ("/" + b);
    if a == "" {
      assert s == "/" + b && s[1..] == b;
    } else {
      assert s[1..] == a[1..] + ("/" + b) && s[0] == a[0];
      SplitBoth(a[1..], b);
    }
  }

  lemma DotsHaveNoDash(x: string)
    requires '-' in x
    ensures !IsDots(x)
  {
    var i :| 0 <= i < |x| && x[i] == '-';
    assert LowerAll(x)[i] == '-';
    assert LowerAll(x)[i] in LowerAll(x);
  }

  lemma SafeConcat(parser: Parser, a: string, b: string)
    ensures IsSafeText(parser, a + b) <==> IsSafeText(parser, a) && IsSafeText(parser, b)
  {
    assert forall c :: c in a + b <==> c in a || c in b;
  }

  /** A safe text whose pieces, except the first, are no dot segments. */
  predicate IsSafeEnding(parser: Parser, s: string) {
    IsSafeText(parser, s) && NoDots(Split(s)[1..])
  }

  /** A text with a dash and without a slash, before an ending and a dot. */
  lemma StemAndEnding(parser: Parser, stem: string, ending: string)
    requires IsSafeText(parser, stem) && '/' !in stem && '-' in stem
    ensures IsSafeKey(parser, stem + ("." + ending)) <==> IsSafeEnding(parser, ending)
  {
    var first, tail := (stem + ".") + Split(ending)[0], Split(ending)[1..];
    Assoc(stem, ".", ending);
    SafeConcat(parser, stem, ".");
    SafeConcat(parser, stem + ".", ending);
    SplitAfter(stem + ".", ending);
    assert '-' in first;
    DotsHaveNoDash(first);
    BothNoDots([first], tail);
  }

  lemma FolderSafeIff(parser: Parser, folder: string, file: string)
    ensures IsSafeKey(parser, folder + ("/" + file)) <==> IsSafeKey(parser, folder) && IsSafeKey(parser, file)
  {
    SplitBoth(folder, file);
    SafeConcat(parser, folder, "/" + file);
    SafeConcat(parser, "/", file);
    BothNoDots(Split(folder), Split(file));
  }

  lemma KeyOfSafeIff(parser: Parser, folder: string, stem: string, ending: string)
    requires IsSafeText(parser, stem) && '/' !in stem && '-' in stem && (folder != "" ==> IsSafeKey(parser, folder))
    ensures IsSafeKey(parser, KeyOf(folder, stem, ending)) <==> IsSafeEnding(parser, ending)
  {
    StemAndEnding(parser, stem, ending);
    FolderSafeIff(parser, folder, stem + ("." + ending));
  }

  lemma StemIsSafe(parser: Parser, timestamp: string, random: string)
    requires IsSafeText(parser, timestamp) && IsSafeText(parser, random)
    ensures IsSafeText(parser, Stem(timestamp, random)) && '-' in Stem(timestamp, random)
  {
    SafeConcat(parser, timestamp, "-");
    SafeConcat(parser, timestamp + "-", random);
    assert Stem(timestamp, random)[|timestamp|] == '-';
  }

  lemma BothNoDots(a: seq<string>, b: seq<string>)
    ensures NoDots(a + b) <==> NoDots(a) && NoDots(b)
  {
    assert forall x :: x in a + b <==> x in a || x in b;
  }

  /** The extension, which is copied into the key as it is, is safe. */
  predicate NameIsSafe(parser: Parser, name: string) {
    IsSafeEnding(parser, Extension(name))
  }

  /** The key generated for an upload comes back exactly when the extension of the user's file name is safe. */
  lemma GeneratedKeyRoundTripIff(site: Site, scheme: string, host: string,
                                 name: string, folder: string, timestamp: string, random: string)
    requires IsOrigin(site, scheme, host) && (folder != "" ==> IsSafeKey(site.parser, folder))
    requires IsSafeText(site.parser, timestamp) && '/' !in timestamp
    requires IsSafeText(site.parser, random) && '/' !in random
    ensures var key := GenerateKey(name, folder, timestamp, random);
            ReadBack(site, key) == key <==> NameIsSafe(site.parser, name)
  {
    StemIsSafe(site.parser, timestamp, random);
    KeyOfSafeIff(site.parser, folder, Stem(timestamp, random), Extension(name));
    RoundTripIff(site, scheme, host, GenerateKey(name, folder, timestamp, random));
  }

  lemma PhotoHasSpace()
    ensures ' ' in Extension("my photo")
  {
    NoDotExtension("my photo");
    assert "my photo"[2] == ' ';
  }

  /** A space is enough: the image of a file called "my photo" is never found again. */
  lemma SpaceDoesNotComeBack(site: Site, scheme: string, host: string, timestamp: string, random: string)
    requires IsOrigin(site, scheme, host)
    requires IsSafeText(site.parser, timestamp) && '/' !in timestamp
    requires IsSafeText(site.parser, random) && '/' !in random
    ensures var key := GenerateKey("my photo", "", timestamp, random); ReadBack(site, key) != key
  {
    PhotoHasSpace();
    GeneratedKeyRoundTripIff(site, scheme, host, "my photo", "", timestamp, random);
  }

  lemma {:induction false} NoDotExtension(name: string)
    requires '.' !in name
    ensures Extension(name) == name
  {
    if name != "" {
      assert name[|name| - 1] in name && name == name[..|name| - 1] + [name[|name| - 1]];
      NoDotExtension(name[..|name| - 1]);
    }
  }

  // ---------------------------------------------------------------------------------------
  // Generated keys do not collide
  // ---------------------------------------------------------------------------------------

  /** No key is read back from the URL of a different one. */
  ghost predicate NoCollision(back: string -> string, keys: set<string>) {
    forall k, l :: k in keys && l in keys ==> Distinct(back, k, l)
  }

  ghost predicate Distinct(back: string -> string, k: string, l: string) {
    back(k) == l ==> k == l
  }

  /** Safe text that is one piece of a path and has no dot: a folder's part, a timestamp, a random number. */
  predicate IsStemText(parser: Parser, s: string) {
    IsSafeText(parser, s) && '/' !in s && '.' !in s
  }

  predicate IsFolder(parser: Parser, folder: string) {
    IsSafeText(parser, folder) && '.' !in folder
  }

  /** Every piece of a text that contains a dot begins with the stem and a dot. */
  ghost predicate DotsOnlyAfter(segments: seq<string>, stem: string) {
    forall x :: x in segments && '.' in x ==> stem + "." <= x
  }

  lemma {:induction false} SplitKeeps(s: string, x: string, c: char)
    requires x in Split(s) && c in x
    ensures c in s
  {
    if s != "" {
      var rest := Split(s[1..]);
      if IsSlash(s[0]) || x in rest[1..] {
        SplitKeeps(s[1..], x, c);
      } else if c != s[0] {
        assert x == [s[0]] + rest[0] && c in rest[0];
        SplitKeeps(s[1..], rest[0], c);
      }
    }
  }

  lemma SplitStem(parser: Parser, stem: string, ending: string)
    requires IsStemText(parser, stem) && '.' !in ending
    ensures Split(stem + ("." + ending)) == [stem + "." + Split(ending)[0]] + Split(ending)[1..]
    ensures DotsOnlyAfter(Split(stem + ("." + ending)), stem)
  {
    var first := stem + ".";
    assert stem + ("." + ending) == first + ending;
    SplitAfter(first, ending);
    forall x | x in Split(ending)[1..] ensures '.' !in x {
      if '.' in x { SplitKeeps(ending, x, '.'); }
    }
    assert first <= first + Split(ending)[0];
  }

  /** The pieces of a generated key: one has a dot, and it begins with the stem. */
  lemma SplitKeyOf(parser: Parser, folder: string, stem: string, ending: string)
    requires IsFolder(parser, folder) && IsStemText(parser, stem) && '.' !in ending
    ensures DotsOnlyAfter(Split(KeyOf(folder, stem, ending)), stem)
    ensures exists x :: x in Split(KeyOf(folder, stem, ending)) && stem + "." <= x
  {
    var file := Split(stem + ("." + ending));
    SplitStem(parser, stem, ending);
    assert file[0] in file && stem + "." <= file[0];
    if folder != "" {
      SplitBoth(folder, stem + ("." + ending));
      forall x | x in Split(folder) ensures '.' !in x {
        if '.' in x { SplitKeeps(folder, x, '.'); }
      }
      assert file[0] in Split(folder) + file;
    }
  }

  lemma {:induction false} EncodedConcat(parser: Parser, a: string, b: string)
    requires IsSafeText(parser, a)
    ensures EncodedText(parser, a + b) == a + EncodedText(parser, b)
  {
    if a == "" {
      assert a + b == b;
    } else {
      assert (a + b)[1..] == a[1..] + b && (a + b)[0] == a[0] && a[0] in a;
      EncodedConcat(parser, a[1..], b);
      Assoc([a[0]], a[1..], EncodedText(parser, b));
      assert [a[0]] + a[1..] == a;
    }
  }

  /** Encoding makes no dots and keeps the stem. */
  lemma EncodedDots(parser: Parser, segments: seq<string>, stem: string)
    requires IsStemText(parser, stem) && DotsOnlyAfter(segments, stem)
    ensures DotsOnlyAfter(EncodedSegments(parser, segments), stem)
  {
    var r := EncodedSegments(parser, segments);
    forall x | x in r && '.' in x
      ensures stem + "." <= x
    {
      var i :| 0 <= i < |r| && r[i] == x;
      var y := segments[i];
      EncodedTextHas(parser, y, '.');
      assert '.' in y && y in segments && stem + "." <= y;
      assert y == (stem + ".") + y[|stem| + 1..];
      EncodedConcat(parser, stem + ".", y[|stem| + 1..]);
    }
  }

  /** Stripping and cutting a text with a safe beginning touch only what follows it. */
  lemma CutAfterSafe(parser: Parser, a: string, b: string)
    requires IsSafeText(parser, a) && a != ""
    ensures Until(StrippedKey(a + b), PATH_ENDS) == a + Until(StrippedKey(b), PATH_ENDS)
  {
    assert a[|a| - 1] in a;
    CutAfterPlain(a, b);
  }

  lemma {:induction false} TrimEndKeeps(s: string, c: char)
    requires c in TrimEnd(s)
    ensures c in s
  {
    if s != "" && IsControlOrSpace(s[|s| - 1]) {
      TrimEndKeeps(s[..|s| - 1], c);
    }
  }

  lemma CutKeeps(s: string, c: char)
    requires c in Until(StrippedKey(s), PATH_ENDS)
    ensures c in s
  {
    assert c in StrippedKey(s);
    WithoutNewlinesKeeps(TrimEnd(s), c);
    TrimEndKeeps(s, c);
  }

  function BeforeEnding(folder: string, stem: string): string {
    if folder == "" then stem + "." else folder + ("/" + (stem + "."))
  }

  lemma KeyOfIs(parser: Parser, folder: string, stem: string, ending: string)
    requires IsFolder(parser, folder) && IsStemText(parser, stem)
    ensures KeyOf(folder, stem, ending) == BeforeEnding(folder, stem) + ending
    ensures IsSafeText(parser, BeforeEnding(folder, stem)) && BeforeEnding(folder, stem) != ""
  {
    Assoc(stem, ".", ending);
    Assoc("/", stem + ".", ending);
    Assoc(folder, "/" + (stem + "."), ending);
    SafeConcat(parser, stem, ".");
    SafeConcat(parser, "/", stem + ".");
    SafeConcat(parser, folder, "/" + (stem + "."));
  }

  /** What the parser sees of a generated key is a generated key with a shorter ending. */
  lemma CutKeyOf(parser: Parser, folder: string, stem: string, ending: string) returns (left: string)
    requires IsFolder(parser, folder) && IsStemText(parser, stem) && '.' !in ending
    ensures Until(StrippedKey(KeyOf(folder, stem, ending)), PATH_ENDS) == KeyOf(folder, stem, left)
    ensures '.' !in left
  {
    left := Until(StrippedKey(ending), PATH_ENDS);
    if '.' in left { CutKeeps(ending, '.'); }
    KeyOfIs(parser, folder, stem, ending);
    KeyOfIs(parser, folder, stem, left);
    CutAfterSafe(parser, BeforeEnding(folder, stem), ending);
  }

  /** Whatever the file was called, each piece with a dot that comes back begins with the stem of the key itself. */
  lemma ResultDots(parser: Parser, folder: string, stem: string, ending: string)
    requires IsFolder(parser, folder) && IsStemText(parser, stem) && '.' !in ending
    ensures DotsOnlyAfter(Split(Result(parser, KeyOf(folder, stem, ending))), stem)
  {
    var left := CutKeyOf(parser, folder, stem, ending);
    var text := KeyOf(folder, stem, left);
    SplitKeyOf(parser, folder, stem, left);
    EncodedDots(parser, Split(text), stem);
    var path := Resolved([], EncodedSegments(parser, Split(text)));
    forall x, c | x in path && c in x
      ensures !IsSlash(c)
    {
      EncodedSegment(parser, text, x, c);
    }
    SplitJoin(path);
  }

  lemma SameStem(stem1: string, stem2: string, x: string)
    requires '.' !in stem1 && '.' !in stem2 && stem1 + "." <= x && stem2 + "." <= x
    ensures stem1 == stem2
  {
    assert x[|stem1|] == '.' && x[|stem2|] == '.';
    assert forall i :: 0 <= i < |stem1| ==> stem1[i] == x[i] != '.';
    assert forall i :: 0 <= i < |stem2| ==> stem2[i] == x[i] != '.';
    assert |stem1| == |stem2|;
    assert stem1 == (stem1 + ".")[..|stem1|] == x[..|stem1|];
    assert stem2 == (stem2 + ".")[..|stem2|] == x[..|stem2|];
  }

  /** `generateKey` makes this key for some file, in a folder without dots, with a time and a number of this stem. */
  ghost predicate HasStem(parser: Parser, key: string, stem: string) {
    exists name: string, folder: string, timestamp: string, random: string ::
      IsMade(parser, key, stem, name, folder, timestamp, random)
  }

  predicate IsMade(parser: Parser, key: string, stem: string,
                   name: string, folder: string, timestamp: string, random: string) {
    && IsFolder(parser, folder) && IsStemText(parser, timestamp) && IsStemText(parser, random)
    && stem == Stem(timestamp, random) && key == GenerateKey(name, folder, timestamp, random)
  }

  lemma MadeStem(parser: Parser, timestamp: string, random: string)
    requires IsStemText(parser, timestamp) && IsStemText(parser, random)
    ensures IsStemText(parser, Stem(timestamp, random))
  {
    StemIsSafe(parser, timestamp, random);
  }

  /** A generated key is never read back from the URL of one with another stem, whatever the files are called. */
  lemma ReadBackKeepsStem(site: Site, scheme: string, host: string, k: string, stem1: string, stem2: string)
    requires IsOrigin(site, scheme, host) && HasStem(site.parser, k, stem1)
    ensures HasStem(site.parser, ReadBack(site, k), stem2) ==> stem1 == stem2
  {
    var l := ReadBack(site, k);
    if HasStem(site.parser, l, stem2) {
      var n1, f1, t1, r1 :| IsMade(site.parser, k, stem1, n1, f1, t1, r1);
      var n2, f2, t2, r2 :| IsMade(site.parser, l, stem2, n2, f2, t2, r2);
      MadeStem(site.parser, t1, r1);
      MadeStem(site.parser, t2, r2);
      ReadBackIs(site, scheme, host, k);
      ResultDots(site.parser, f1, stem1, Extension(n1));
      SplitKeyOf(site.parser, f2, stem2, Extension(n2));
      var x :| x in Split(l) && stem2 + "." <= x;
      assert x[|stem2|] == '.' && '.' in x;
      SameStem(stem1, stem2, x);
    }
  }

  /** Every key is generated, and no two of them with the same timestamp and random number. */
  ghost predicate AllGenerated(parser: Parser, keys: set<string>) {
    && (forall k :: k in keys ==> exists stem :: HasStem(parser, k, stem))
    && (forall k, l, stem :: k in keys && l in keys && HasStem(parser, k, stem) && HasStem(parser, l, stem) ==> k == l)
  }

  /** On an origin, generated keys do not collide, safe or not. */
  lemma GeneratedKeysDoNotCollide(site: Site, scheme: string, host: string, keys: set<string>)
    requires IsOrigin(site, scheme, host) && AllGenerated(site.parser, keys)
    ensures NoCollision(BackOf(site), keys)
  {
    forall k, l | k in keys && l in keys
      ensures Distinct(BackOf(site), k, l)
    {
      if ReadBack(site, k) == l {
        var stem1 :| HasStem(site.parser, k, stem1);
        var stem2 :| HasStem(site.parser, l, stem2);
        ReadBackKeepsStem(site, scheme, host, k, stem1, stem2);
      }
    }
  }
}
