// GitLab base URLs (providers/gitlab/gitlab.go): how the path of a configured base URL is checked,
// trimmed and joined with the endpoint paths. Section 2.1 and section 5.2.4 of RFC 3986. Paths are
// handled as net/url does: Path is the decoded path, RawPath the one that was written, if it differs
// from the default encoding of Path.

module GitLab {
  import opened Wrappers
  import opened Text
  import opened UrlQuery

  // --- percent encoding of paths ---

  predicate Literal(c: char) {
    Plain(c) || c in "$&+,/:;=@"
  }

  function EncodeByte(c: char): string {
    if Literal(c) then [c] else ['%', HexDigit(c as int / 16 % 16), HexDigit(c as int % 16)]
  }

  // The default encoding.
  function Encoded(path: string): string {
    if path == "" then "" else EncodeByte(path[0]) + Encoded(path[1..])
  }

  function Decoded(text: string): Option<string> {
    if text == "" then Some("")
    else if text[0] == '%' then
      if |text| < 3 then None
      else match (HexValue(text[1]), HexValue(text[2]), Decoded(text[3..]))
           case (Some(high), Some(low), Some(rest)) => Some([(high * 16 + low) as char] + rest)
           case _ => None
    else match Decoded(text[1..])
         case Some(rest) => Some([text[0]] + rest)
         case None => None
  }

  predicate ValidCharacter(c: char) {
    Literal(c) || c in "!'()*[]%"
  }

  // validEncoded.
  predicate ValidEncoding(text: string) {
    forall c :: c in text ==> ValidCharacter(c)
  }

  datatype Path = Path(path: string, rawPath: string)

  // setPath.
  function SetPath(text: string): Option<Path> {
    match Decoded(text)
    case Some(path) => Some(Path(path, if text == Encoded(path) then "" else text))
    case None => None
  }

  predicate UsesRaw(u: Path) {
    u.rawPath != "" && ValidEncoding(u.rawPath) && Decoded(u.rawPath) == Some(u.path)
  }

  // EscapedPath; the paths at hand are rooted or empty, so the asterisk form does not arise.
  function EscapedPath(u: Path): string {
    if UsesRaw(u) then u.rawPath else Encoded(u.path)
  }

  // --- the segment check ---

  // strings.Split at slashes.
  function Segments(text: string): (r: seq<string>)
    ensures r != []
  {
    if text == "" then [""]
    else
      var rest := Segments(text[1..]);
      if text[0] == '/' then [""] + rest else [[text[0]] + rest[0]] + rest[1..]
  }

  predicate GoodSegment(segment: string) {
    match Decoded(segment)
    case Some(decoded) => decoded != "." && decoded != ".." && '/' !in decoded && '\\' !in decoded
    case None => false
  }

  predicate Acceptable(u: Path) {
    forall segment :: segment in Segments(EscapedPath(u)) ==> GoodSegment(segment)
  }

  // strings.TrimRight(s, "/").
  function TrimSlashes(s: string): (r: string)
    ensures r == "" || r[|r| - 1] != '/'
  {
    if s != "" && s[|s| - 1] == '/' then TrimSlashes(s[..|s| - 1]) else s
  }

  function Trim(u: Path): Path {
    Path(TrimSlashes(u.path), TrimSlashes(u.rawPath))
  }

  // A base URL as url.ParseRequestURI returns it.
  class ParsedURL {
    var scheme: string
    var host: string
    var hasUser: bool
    var opaquePart: string
    var rawQuery: string
    var forceQuery: bool
    var fragment: string
    var path: Path

    constructor (scheme: string, host: string, path: Path)
      ensures this.scheme == scheme && this.host == host && this.path == path
      ensures !hasUser && opaquePart == "" && rawQuery == "" && !forceQuery && fragment == ""
    {
      this.scheme, this.host, this.path := scheme, host, path;
      hasUser, opaquePart, rawQuery, forceQuery, fragment := false, "", "", false, "";
    }

    // normalizeBaseURL from the parsed URL on: everything but the path has to be plain https, where
    // the parser has lowered the scheme. The path of the result is EscapedPath(path).
    method Normalize() returns (ok: bool)
      modifies this
      ensures ok <==>
              && old(scheme) == "https" && old(host) != "" && !old(hasUser) && old(opaquePart) == "" && old(rawQuery) == ""
              && !old(forceQuery) && old(fragment) == "" && Acceptable(old(path))
      ensures path == if ok then Trim(old(path)) else old(path)
      ensures host == old(host) && scheme == old(scheme) && unchanged(this`hasUser, this`opaquePart, this`rawQuery)
      ensures unchanged(this`forceQuery, this`fragment)
    {
      if scheme != "https" || host == "" || hasUser || opaquePart != "" || rawQuery != "" || forceQuery || fragment != "" {
        return false;
      }
      var segments := Segments(EscapedPath(path));
      for i := 0 to |segments|
        invariant forall j :: 0 <= j < i ==> GoodSegment(segments[j])
      {
        var decoded := Decoded(segments[i]);
        if decoded.None? || decoded.value == "." || decoded.value == ".." || '/' in decoded.value || '\\' in decoded.value {
          assert segments[i] in segments;
          return false;
        }
      }
      scheme := "https";
      path := Path(TrimSlashes(path.path), TrimSlashes(path.rawPath));
      ok := true;
    }
  }

  // --- decoding against trimming ---

  lemma Associative(c: char, x: string, y: string)
    ensures [c] + (x + y) == ([c] + x) + y
  {
  }

  lemma {:induction false} DecodedConcat(a: string, b: string)
    requires Decoded(a).Some?
    ensures Decoded(a + b) == if Decoded(b).Some? then Some(Decoded(a).value + Decoded(b).value) else None
    decreases |a|
  {
    if a == "" {
      assert a + b == b;
      if Decoded(b).Some? {
        assert "" + Decoded(b).value == Decoded(b).value;
      }
    } else {
      var n := if a[0] == '%' then 3 else 1;
      assert (a + b)[n..] == a[n..] + b;
      DecodedConcat(a[n..], b);
      if Decoded(b).Some? {
        Associative(Decoded(a).value[0], Decoded(a[n..]).value, Decoded(b).value);
      }
    }
  }

  // A prefix that does not cut an escape in two decodes if the whole does; a slash never does.
  lemma {:induction false} DecodedBeforeSlash(text: string)
    requires text != "" && text[|text| - 1] == '/' && Decoded(text).Some?
    ensures Decoded(text[..|text| - 1]).Some?
    ensures Decoded(text).value == Decoded(text[..|text| - 1]).value + "/"
    decreases |text|
  {
    if |text| > 1 {
      var n := if text[0] == '%' then 3 else 1;
      if |text| > n {
        DecodedBeforeSlash(text[n..]);
        assert text[..|text| - 1][n..] == text[n..][..|text[n..]| - 1];
      }
    }
  }

  predicate EndsInEncodedSlash(text: string) {
    |text| >= 3 && text[|text| - 3] == '%' && text[|text| - 2] == '2' && (text[|text| - 1] == 'F' || text[|text| - 1] == 'f')
  }

  lemma {:induction false} DecodedEndsInSlash(text: string)
    requires text != "" && Decoded(text).Some? && text[|text| - 1] != '/'
    ensures Decoded(text).value != ""
    ensures Decoded(text).value[|Decoded(text).value| - 1] == '/' <==> EndsInEncodedSlash(text)
    decreases |text|
  {
    var n := if text[0] == '%' then 3 else 1;
    if |text| > n {
      DecodedEndsInSlash(text[n..]);
      assert forall i :: 0 <= i < |text| - n ==> text[n..][i] == text[i + n];
      assert EndsInEncodedSlash(text) <==> EndsInEncodedSlash(text[n..]);
    }
  }

  // Percent-decoding commutes with trimming trailing slashes exactly when the trimmed text does not
  // end in an encoded slash.
  lemma {:induction false} DecodingCommutesWithTrimming(raw: string)
    requires Decoded(raw).Some?
    ensures Decoded(TrimSlashes(raw)).Some?
    ensures Decoded(TrimSlashes(raw)).value == TrimSlashes(Decoded(raw).value) <==> !EndsInEncodedSlash(TrimSlashes(raw))
    decreases |raw|
  {
    if raw != "" {
      if raw[|raw| - 1] == '/' {
        DecodedBeforeSlash(raw);
        DecodingCommutesWithTrimming(raw[..|raw| - 1]);
        var inner := Decoded(raw[..|raw| - 1]).value;
        assert (inner + "/")[..|inner|] == inner;
      } else {
        DecodedEndsInSlash(raw);
      }
    }
  }

  // --- the printed path ---

  lemma {:induction false} EncodedConcat(a: string, b: string)
    ensures Encoded(a + b) == Encoded(a) + Encoded(b)
  {
    if a == "" {
      assert a + b == b;
    } else {
      assert (a + b)[1..] == a[1..] + b;
      EncodedConcat(a[1..], b);
    }
  }

  lemma DigitsDecode(n: nat, rest: string, tail: string)
    requires n < 256 && Decoded(rest) == Some(tail)
    ensures Decoded(['%', HexDigit(n / 16), HexDigit(n % 16)] + rest) == Some([n as char] + tail)
  {
    var text := ['%', HexDigit(n / 16), HexDigit(n % 16)] + rest;
    HexRoundTrip(n / 16);
    HexRoundTrip(n % 16);
    assert text[3..] == rest;
  }

  lemma EncodedByDigits(n: nat)
    requires n < 256 && !Literal(n as char)
    ensures EncodeByte(n as char) == ['%', HexDigit(n / 16), HexDigit(n % 16)]
  {
    assert n / 16 < 16;
  }

  lemma EscapeDecodes(c: char, rest: string, tail: string)
    requires c as int < 256 && Decoded(rest) == Some(tail)
    ensures Decoded(EncodeByte(c) + rest) == Some([c] + tail)
  {
    if Literal(c) {
      assert (EncodeByte(c) + rest)[1..] == rest;
    } else {
      EncodedByDigits(c as int);
      DigitsDecode(c as int, rest, tail);
    }
  }

  lemma {:induction false} EncodedDecodes(path: string)
    requires IsBytes(path)
    ensures Decoded(Encoded(path)) == Some(path)
  {
    if path != "" {
      EncodedDecodes(path[1..]);
      EscapeDecodes(path[0], Encoded(path[1..]), path[1..]);
      assert path == [path[0]] + path[1..];
    }
  }

  lemma {:induction false} EncodedIsValid(path: string)
    ensures ValidEncoding(Encoded(path))
  {
    if path != "" {
      EncodedIsValid(path[1..]);
      HexRoundTrip(path[0] as int / 16 % 16);
      HexRoundTrip(path[0] as int % 16);
    }
  }

  lemma {:induction false} EncodingCommutesWithTrimming(path: string)
    ensures TrimSlashes(Encoded(path)) == Encoded(TrimSlashes(path))
    decreases |path|
  {
    if path != "" {
      var front, c := path[..|path| - 1], path[|path| - 1];
      assert path == front + [c];
      EncodedConcat(front, [c]);
      assert Encoded([c]) == EncodeByte(c);
      if c == '/' {
        EncodingCommutesWithTrimming(front);
        assert (Encoded(front) + "/")[..|Encoded(front)|] == Encoded(front);
      }
    }
  }

  // --- which trailing slashes the segment check sees ---

  lemma SegmentsOfMore(c: char, text: string)
    ensures Segments([c] + text) ==
            if c == '/' then [""] + Segments(text) else [[c] + Segments(text)[0]] + Segments(text)[1..]
  {
    assert ([c] + text)[1..] == text;
  }

  lemma {:induction false} SegmentsOfConcat(a: string, b: string)
    ensures Segments(a + "/" + b) == Segments(a) + Segments(b)
  {
    if a == "" {
      assert a + "/" + b == ['/'] + b;
      SegmentsOfMore('/', b);
    } else {
      assert a + "/" + b == [a[0]] + (a[1..] + "/" + b) && a == [a[0]] + a[1..];
      SegmentsOfConcat(a[1..], b);
      SegmentsOfMore(a[0], a[1..] + "/" + b);
      SegmentsOfMore(a[0], a[1..]);
    }
  }

  lemma {:induction false} OneSegment(text: string)
    requires '/' !in text
    ensures Segments(text) == [text]
  {
    if text != "" {
      assert text[0] in text && forall c :: c in text[1..] ==> c in text;
      OneSegment(text[1..]);
      assert text == [text[0]] + text[1..];
    }
  }

  lemma {:induction false} LastSegmentKeepsTheEnd(text: string)
    requires EndsInEncodedSlash(text)
    ensures EndsInEncodedSlash(Segments(text)[|Segments(text)| - 1])
    decreases |text|
  {
    if |text| > 3 {
      assert EndsInEncodedSlash(text[1..]);
      LastSegmentKeepsTheEnd(text[1..]);
    } else {
      OneSegment(text);
    }
  }

  // A segment that ends in an encoded slash is refused.
  lemma EncodedSlashIsRefused(segment: string)
    requires EndsInEncodedSlash(segment)
    ensures !GoodSegment(segment)
  {
    if Decoded(segment).Some? {
      DecodedEndsInSlash(segment);
    }
  }

  lemma {:induction false} TrimmingKeepsSegments(text: string)
    ensures forall segment :: segment in Segments(TrimSlashes(text)) ==> segment in Segments(text)
    decreases |text|
  {
    if text != "" && text[|text| - 1] == '/' {
      var front := text[..|text| - 1];
      TrimmingKeepsSegments(front);
      SegmentsOfConcat(front, "");
      assert text == front + "/" + "";
    }
  }

  // u is what setPath leaves behind.
  ghost predicate Parsed(u: Path) {
    IsBytes(u.path) && (u.rawPath == "" || Decoded(u.rawPath) == Some(u.path))
  }

  // The separately trimmed RawPath still decodes to the trimmed Path whenever the segment check read it.
  lemma AcceptedRawPathStaysInStep(u: Path)
    requires Parsed(u) && Acceptable(u) && UsesRaw(u)
    ensures Decoded(TrimSlashes(u.rawPath)) == Some(TrimSlashes(u.path))
  {
    var trimmed := TrimSlashes(u.rawPath);
    if EndsInEncodedSlash(trimmed) {
      LastSegmentKeepsTheEnd(trimmed);
      EncodedSlashIsRefused(Segments(trimmed)[|Segments(trimmed)| - 1]);
      TrimmingKeepsSegments(u.rawPath);
    }
    DecodingCommutesWithTrimming(u.rawPath);
  }

  lemma {:induction false} TrimmingKeepsValidity(text: string)
    ensures ValidEncoding(TrimSlashes(text)) <==> ValidEncoding(text)
    decreases |text|
  {
    if text != "" && text[|text| - 1] == '/' {
      TrimmingKeepsValidity(text[..|text| - 1]);
      assert text == text[..|text| - 1] + "/";
    }
  }

  // Trimming the two fields separately prints what trimming the printed path would.
  lemma TrimmingIsPrinted(u: Path)
    requires Parsed(u) && Acceptable(u)
    ensures EscapedPath(Trim(u)) == TrimSlashes(EscapedPath(u))
  {
    TrimmingKeepsValidity(u.rawPath);
    EncodingCommutesWithTrimming(u.path);
    if UsesRaw(u) {
      AcceptedRawPathStaysInStep(u);
    }
  }

  lemma PrintedPathsAreParsedBack(text: string)
    requires ValidEncoding(text) && Decoded(text).Some?
    ensures SetPath(text).Some? && EscapedPath(SetPath(text).value) == text
  {
  }

  lemma EscapedPathIsPrinted(u: Path)
    requires Parsed(u)
    ensures ValidEncoding(EscapedPath(u)) && Decoded(EscapedPath(u)) == Some(u.path)
  {
    EncodedIsValid(u.path);
    EncodedDecodes(u.path);
  }

  lemma {:induction false} DecodedIsBytes(text: string)
    requires ValidEncoding(text) && Decoded(text).Some?
    ensures IsBytes(Decoded(text).value)
    decreases |text|
  {
    if text != "" {
      var n := if text[0] == '%' then 3 else 1;
      DecodedIsBytes(text[n..]);
      assert text[0] in text;
      var c := Decoded(text).value[0];
      assert c as int < 256;
      assert Decoded(text).value == [c] + Decoded(text[n..]).value;
    }
  }

  // Normalizing a normalized path changes nothing: it is parsed, accepted and printed as it was.
  lemma NormalizedIsFixed(u: Path)
    requires Parsed(u) && Acceptable(u)
    ensures var e := EscapedPath(Trim(u));
            SetPath(e).Some? && Acceptable(SetPath(e).value) && EscapedPath(Trim(SetPath(e).value)) == e
  {
    var e := TrimSlashes(EscapedPath(u));
    TrimmingIsPrinted(u);
    EscapedPathIsPrinted(u);
    TrimmingKeepsValidity(EscapedPath(u));
    DecodingCommutesWithTrimming(EscapedPath(u));
    PrintedPathsAreParsedBack(e);
    TrimmingKeepsSegments(EscapedPath(u));
    DecodedIsBytes(e);
    TrimmingIsPrinted(SetPath(e).value);
  }

  // --- what the segment check reads when RawPath is ignored ---

  function AllEncoded(parts: seq<string>): (r: seq<string>)
    ensures |r| == |parts|
    ensures forall i :: 0 <= i < |parts| ==> r[i] == Encoded(parts[i])
  {
    seq(|parts|, i requires 0 <= i < |parts| => Encoded(parts[i]))
  }

  lemma {:induction false} SegmentsOfEncoded(path: string)
    ensures Segments(Encoded(path)) == AllEncoded(Segments(path))
  {
    if path != "" {
      SegmentsOfEncoded(path[1..]);
      SegmentsOfEncodedByte(path[0], Encoded(path[1..]));
    }
  }

  lemma {:induction false} PrefixedSegments(prefix: string, rest: string)
    requires '/' !in prefix
    ensures Segments(prefix + rest) == [prefix + Segments(rest)[0]] + Segments(rest)[1..]
  {
    var text := prefix + rest;
    if prefix == "" {
      assert text == rest && prefix + Segments(rest)[0] == Segments(rest)[0];
    } else {
      assert text[1..] == prefix[1..] + rest;
      assert prefix[0] in prefix && forall c :: c in prefix[1..] ==> c in prefix;
      PrefixedSegments(prefix[1..], rest);
      assert [prefix[0]] + (prefix[1..] + Segments(rest)[0]) == prefix + Segments(rest)[0];
    }
  }

  lemma SegmentsOfEncodedByte(c: char, rest: string)
    ensures c == '/' ==> Segments(EncodeByte(c) + rest) == [""] + Segments(rest)
    ensures c != '/' ==> Segments(EncodeByte(c) + rest) == [EncodeByte(c) + Segments(rest)[0]] + Segments(rest)[1..]
  {
    if c == '/' {
      assert (EncodeByte(c) + rest)[1..] == rest;
    } else {
      HexRoundTrip(c as int / 16 % 16);
      HexRoundTrip(c as int % 16);
      PrefixedSegments(EncodeByte(c), rest);
    }
  }

  predicate PlainSegment(segment: string) {
    segment != "." && segment != ".." && '\\' !in segment
  }

  lemma {:induction false} SegmentsHoldNoSlash(text: string)
    ensures forall segment :: segment in Segments(text) ==> '/' !in segment
    ensures forall segment, c :: segment in Segments(text) && c in segment ==> c in text
  {
    if text != "" {
      SegmentsHoldNoSlash(text[1..]);
    }
  }

  lemma EncodedSegmentIsJudgedDecoded(segment: string)
    requires '/' !in segment && forall c :: c in segment ==> c as int < 256
    ensures GoodSegment(Encoded(segment)) <==> PlainSegment(segment)
  {
    forall i | 0 <= i < |segment|
      ensures segment[i] as int < 256
    {
      assert segment[i] in segment;
    }
    EncodedDecodes(segment);
  }

  // Then it judges the decoded path alone, in which an encoded slash is a slash like any other.
  lemma IgnoredRawPathIsUnchecked(u: Path)
    requires Parsed(u) && !UsesRaw(u)
    ensures Acceptable(u) <==> forall segment :: segment in Segments(u.path) ==> PlainSegment(segment)
  {
    var plain, encoded := Segments(u.path), Segments(Encoded(u.path));
    SegmentsOfEncoded(u.path);
    SegmentsHoldNoSlash(u.path);
    forall i | 0 <= i < |plain|
      ensures GoodSegment(encoded[i]) <==> PlainSegment(plain[i])
    {
      assert plain[i] in plain;
      EncodedSegmentIsJudgedDecoded(plain[i]);
    }
  }

  lemma LiteralDecodes(c: char, rest: string, tail: string)
    requires c != '%' && Decoded(rest) == Some(tail)
    ensures Decoded([c] + rest) == Some([c] + tail)
  {
    assert ([c] + rest)[1..] == rest;
  }

  lemma HiddenSlashDecodes(c: char)
    requires c != '%'
    ensures Decoded(['/', c, '%', '2', 'F']) == Some(['/', c, '/'])
  {
    var slash := ['%', '2', 'F'];
    assert slash[3..] == "";
    assert Decoded(slash) == Some(['/'] + "") && ['/'] + "" == ['/'];
    LiteralDecodes(c, slash, ['/']);
    assert [c] + slash == [c, '%', '2', 'F'] && [c] + ['/'] == [c, '/'];
    LiteralDecodes('/', [c] + slash, [c, '/']);
    assert ['/'] + [c, '%', '2', 'F'] == ['/', c, '%', '2', 'F'] && ['/'] + [c, '/'] == ['/', c, '/'];
  }

  lemma HiddenSlashIsAccepted(c: char, u: Path)
    requires u.path == ['/', c, '/'] && c != '/' && PlainSegment([c])
    requires Parsed(u) && !UsesRaw(u)
    ensures Acceptable(u)
  {
    OneSegment([c]);
    SegmentsOfConcat([c], "");
    SegmentsOfConcat("", [c, '/']);
    assert [c] + "/" + "" == [c, '/'] && "" + "/" + [c, '/'] == u.path;
    IgnoredRawPathIsUnchecked(u);
  }

  // The bytes url.ParseRequestURI passes on in a path: it refuses control bytes, and a question mark
  // starts the query.
  predicate Passed(c: char) {
    ' ' <= c && c != '\U{7F}' && c as int < 256 && c != '?'
  }

  // So a raw path with a byte that should have been escaped, a quotation mark for one, gets an encoded
  // slash past the check, and its trimmed fields no longer agree.
  lemma UncheckedRawPath(c: char, raw: string)
    requires Passed(c) && !ValidCharacter(c) && c != '\\' && raw == ['/', c, '%', '2', 'F']
    ensures var u := Path(['/', c, '/'], raw);
            SetPath(raw) == Some(u) && Acceptable(u) && Decoded(TrimSlashes(raw)) != Some(TrimSlashes(u.path))
  {
    var u := Path(['/', c, '/'], raw);
    HiddenSlashDecodes(c);
    EncodedIsValid(u.path);
    assert raw[1] in raw;
    HiddenSlashIsAccepted(c, u);
    assert EndsInEncodedSlash(raw) && TrimSlashes(raw) == raw;
    DecodingCommutesWithTrimming(raw);
  }

  // --- the escapes themselves ---

  // The bytes that stand for themselves in a path; all others are escaped with upper case digits.
  lemma EncodedByteByName(c: char)
    requires c as int < 256
    ensures if ('a' <= c <= 'z') || ('A' <= c <= 'Z') || ('0' <= c <= '9') || c in "-_.~$&+,/:;=@" then EncodeByte(c) == [c]
            else EncodeByte(c) == ['%', "0123456789ABCDEF"[c as int / 16], "0123456789ABCDEF"[c as int % 16]]
  {
    HexDigitByName(c as int / 16);
    HexDigitByName(c as int % 16);
  }

  // Decoding fails exactly on a percent sign that two hexadecimal digits do not follow.
  lemma {:induction false} DecodedFails(text: string)
    ensures Decoded(text).None? <==> Broken(text)
  {
    if text != "" {
      BrokenFirst(text);
      if text[0] != '%' {
        DecodedFails(text[1..]);
      } else if |text| >= 3 {
        DecodedFails(text[3..]);
      }
    }
  }
}
