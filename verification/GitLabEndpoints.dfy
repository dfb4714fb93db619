// The endpoint paths of a GitLab base URL (providers/gitlab/gitlab.go): url.JoinPath over an accepted
// path. Section 5.2.4 of RFC 3986.

module GitLabEndpoints {
  import opened Wrappers
  import opened Text
  import opened UrlQuery
  import opened GitLab

  // strings.Join with slashes.
  function JoinSlash(parts: seq<string>): string {
    if parts == [] then ""
    else if |parts| == 1 then parts[0]
    else parts[0] + "/" + JoinSlash(parts[1..])
  }

  // The segments path.Clean keeps of a rooted path: empty and "." segments go, and ".." takes the
  // segment before it along.
  function Kept(segments: seq<string>, kept: seq<string>): seq<string>
    decreases |segments|
  {
    if segments == [] then kept
    else if segments[0] == "" || segments[0] == "." then Kept(segments[1..], kept)
    else if segments[0] == ".." then Kept(segments[1..], if kept == [] then [] else kept[..|kept| - 1])
    else Kept(segments[1..], kept + [segments[0]])
  }

  // path.Clean of a rooted path.
  function Clean(text: string): string {
    "/" + JoinSlash(Kept(Segments(text), []))
  }

  // URL.JoinPath with one element that does not end in a slash.
  function JoinPath(escaped: string, element: string): string {
    if escaped != "" && escaped[0] == '/' then Clean(escaped + "/" + element)
    else Clean("/" + escaped + "/" + element)[1..]
  }

  // The path of the endpoint's text: URL.String puts a slash between the host and a path without one.
  function EndpointPath(escaped: string, element: string): string {
    var joined := JoinPath(escaped, element);
    if joined != "" && joined[0] != '/' then "/" + joined else joined
  }

  function NonEmpty(segments: seq<string>): seq<string> {
    if segments == [] then []
    else if segments[0] == "" then NonEmpty(segments[1..])
    else [segments[0]] + NonEmpty(segments[1..])
  }

  predicate Dotted(segment: string) {
    segment == "." || segment == ".."
  }

  // --- nothing is popped ---

  lemma {:induction false} NothingIsPopped(segments: seq<string>, kept: seq<string>)
    requires forall segment :: segment in segments ==> !Dotted(segment)
    ensures Kept(segments, kept) == kept + NonEmpty(segments)
    decreases |segments|
  {
    if segments != [] {
      assert segments[0] in segments && forall s :: s in segments[1..] ==> s in segments;
      var rest := NonEmpty(segments[1..]);
      if segments[0] == "" {
        NothingIsPopped(segments[1..], kept);
      } else {
        NothingIsPopped(segments[1..], kept + [segments[0]]);
        assert kept + [segments[0]] + rest == kept + ([segments[0]] + rest);
      }
    } else {
      assert kept + [] == kept;
    }
  }

  lemma {:induction false} NonEmptyConcat(a: seq<string>, b: seq<string>)
    ensures NonEmpty(a + b) == NonEmpty(a) + NonEmpty(b)
  {
    if a == [] {
      assert a + b == b;
    } else {
      assert (a + b)[1..] == a[1..] + b;
      NonEmptyConcat(a[1..], b);
    }
  }

  // A dot segment decodes to itself, so the segment check refuses it.
  lemma DotsAreRefused(segment: string)
    requires Dotted(segment)
    ensures !GoodSegment(segment)
  {
    OnlyDotsDecodeToThemselves(segment);
  }

  lemma {:induction false} OnlyDotsDecodeToThemselves(text: string)
    requires forall c :: c in text ==> c == '.'
    ensures Decoded(text) == Some(text)
  {
    if text != "" {
      assert text[0] in text && forall c :: c in text[1..] ==> c in text;
      OnlyDotsDecodeToThemselves(text[1..]);
      assert text == [text[0]] + text[1..];
    }
  }

  predicate Rooted(text: string) {
    text == "" || text[0] == '/'
  }

  // Segments that come out of the join as they went in.
  predicate Steady(segments: seq<string>) {
    forall segment :: segment in segments ==> segment != "" && !Dotted(segment)
  }

  lemma {:induction false} SteadyIsNonEmpty(segments: seq<string>)
    requires Steady(segments)
    ensures NonEmpty(segments) == segments
  {
    if segments != [] {
      assert segments[0] in segments && forall s :: s in segments[1..] ==> s in segments;
      SteadyIsNonEmpty(segments[1..]);
    }
  }

  lemma CleanKeepsOrder(front: string, element: string)
    requires forall segment :: segment in Segments(front) ==> !Dotted(segment)
    requires Steady(Segments(element))
    ensures Clean(front + "/" + element) == "/" + JoinSlash(NonEmpty(Segments(front)) + Segments(element))
  {
    SegmentsOfConcat(front, element);
    NothingIsPopped(Segments(front) + Segments(element), []);
    NonEmptyConcat(Segments(front), Segments(element));
    SteadyIsNonEmpty(Segments(element));
    assert [] + NonEmpty(Segments(front) + Segments(element)) == NonEmpty(Segments(front)) + Segments(element);
  }

  // Trailing slashes add empty segments only.
  lemma {:induction false} TrimmingKeepsNonEmpty(text: string)
    ensures NonEmpty(Segments(TrimSlashes(text))) == NonEmpty(Segments(text))
    decreases |text|
  {
    if text != "" && text[|text| - 1] == '/' {
      var front := text[..|text| - 1];
      TrimmingKeepsNonEmpty(front);
      SegmentsOfConcat(front, "");
      assert text == front + "/" + "";
      NonEmptyConcat(Segments(front), [""]);
    }
  }

  lemma {:induction false} TrimmedIsRooted(text: string)
    requires Rooted(text)
    ensures Rooted(TrimSlashes(text))
    decreases |text|
  {
    if text != "" && text[|text| - 1] == '/' {
      TrimmedIsRooted(text[..|text| - 1]);
    }
  }

  lemma JoinedToRoot(element: string)
    requires Steady(Segments(element))
    ensures Clean("/" + "/" + element) == "/" + JoinSlash(Segments(element))
  {
    SegmentsOfConcat("", "");
    assert "" + "/" + "" == "/";
    CleanKeepsOrder("/", element);
    assert NonEmpty(["", ""]) + Segments(element) == Segments(element);
  }

  lemma JoinedToBase(e: string, element: string)
    requires Rooted(e) && Steady(Segments(element))
    requires forall segment :: segment in Segments(e) ==> !Dotted(segment)
    ensures EndpointPath(e, element) == "/" + JoinSlash(NonEmpty(Segments(e)) + Segments(element))
  {
    if e == "" {
      assert "/" + e + "/" + element == "/" + "/" + element;
      JoinedToRoot(element);
      var joined := JoinSlash(Segments(element));
      assert ("/" + joined)[1..] == joined;
      SegmentsHoldNoSlash(element);
      StartsWithSegment(Segments(element));
      assert NonEmpty([""]) + Segments(element) == Segments(element);
    } else {
      CleanKeepsOrder(e, element);
    }
  }

  lemma StartsWithSegment(segments: seq<string>)
    requires segments != [] && Steady(segments)
    requires forall segment :: segment in segments ==> '/' !in segment
    ensures JoinSlash(segments) != "" && JoinSlash(segments)[0] != '/'
  {
    assert segments[0] in segments && segments[0][0] in segments[0];
    assert JoinSlash(segments)[0] == segments[0][0];
  }

  // Each endpoint path is the non-empty base segments in order, then the segments of its suffix.
  lemma EndpointKeepsBase(u: Path, element: string)
    requires Parsed(u) && Acceptable(u) && Rooted(EscapedPath(u))
    requires Steady(Segments(element))
    ensures EndpointPath(EscapedPath(Trim(u)), element)
            == "/" + JoinSlash(NonEmpty(Segments(EscapedPath(u))) + Segments(element))
  {
    var whole := EscapedPath(u);
    TrimmingIsPrinted(u);
    TrimmingKeepsSegments(whole);
    TrimmingKeepsNonEmpty(whole);
    forall segment | segment in Segments(TrimSlashes(whole))
      ensures !Dotted(segment)
    {
      if Dotted(segment) {
        DotsAreRefused(segment);
      }
    }
    TrimmedIsRooted(whole);
    JoinedToBase(TrimSlashes(whole), element);
  }

  // --- the joined path read back ---

  lemma {:induction false} SegmentsOfJoin(parts: seq<string>)
    requires parts != [] && forall part :: part in parts ==> '/' !in part
    ensures Segments(JoinSlash(parts)) == parts
  {
    assert parts[0] in parts && forall part :: part in parts[1..] ==> part in parts;
    OneSegment(parts[0]);
    if |parts| > 1 {
      SegmentsOfJoin(parts[1..]);
      SegmentsOfConcat(parts[0], JoinSlash(parts[1..]));
    }
  }

  // Decodes, with nothing net/url would have escaped.
  predicate Printable(text: string) {
    ValidEncoding(text) && Decoded(text).Some?
  }

  lemma PrintableConcat(a: string, b: string)
    requires Printable(a) && Printable(b)
    ensures Printable(a + b)
  {
    DecodedConcat(a, b);
  }

  lemma SlashIsPrintable()
    ensures Printable("/")
  {
    assert "/"[1..] == "";
  }

  lemma {:induction false} JoinIsPrintable(parts: seq<string>)
    requires forall part :: part in parts ==> Printable(part)
    ensures Printable(JoinSlash(parts))
  {
    if parts != [] {
      assert parts[0] in parts && forall part :: part in parts[1..] ==> part in parts;
      if |parts| > 1 {
        JoinIsPrintable(parts[1..]);
        SlashIsPrintable();
        PrintableConcat(parts[0], "/");
        PrintableConcat(parts[0] + "/", JoinSlash(parts[1..]));
      }
    }
  }

  lemma {:induction false} NonEmptyIsFromSegments(segments: seq<string>)
    ensures forall part :: part in NonEmpty(segments) ==> part in segments
  {
    if segments != [] {
      NonEmptyIsFromSegments(segments[1..]);
    }
  }

  lemma SegmentsArePrintable(text: string)
    requires ValidEncoding(text) && forall segment :: segment in Segments(text) ==> GoodSegment(segment)
    ensures forall segment :: segment in Segments(text) ==> Printable(segment)
  {
    SegmentsHoldNoSlash(text);
  }

  lemma BasePartsAreSteady(u: Path)
    requires Parsed(u) && Acceptable(u)
    ensures forall part :: part in NonEmpty(Segments(EscapedPath(u))) ==> '/' !in part && Printable(part)
  {
    EscapedPathIsPrinted(u);
    NonEmptyIsFromSegments(Segments(EscapedPath(u)));
    SegmentsHoldNoSlash(EscapedPath(u));
    SegmentsArePrintable(EscapedPath(u));
  }

  lemma PartsReadBack(base: seq<string>, suffix: seq<string>)
    requires suffix != []
    requires forall part :: part in base || part in suffix ==> '/' !in part && Printable(part)
    ensures var path := "/" + JoinSlash(base + suffix);
            Segments(path) == [""] + base + suffix && SetPath(path).Some? && EscapedPath(SetPath(path).value) == path
  {
    RootedJoinReadsBack(base + suffix);
    assert [""] + (base + suffix) == [""] + base + suffix;
  }

  // The segments of an endpoint are the non-empty base segments in order, then those of its suffix,
  // and its path is printed as it was joined.
  lemma EndpointReadsBack(u: Path, element: string)
    requires Parsed(u) && Acceptable(u) && Rooted(EscapedPath(u))
    requires Steady(Segments(element)) && forall part :: part in Segments(element) ==> Printable(part)
    ensures var endpoint := EndpointPath(EscapedPath(Trim(u)), element);
            Segments(endpoint) == [""] + NonEmpty(Segments(EscapedPath(u))) + Segments(element)
            && SetPath(endpoint).Some? && EscapedPath(SetPath(endpoint).value) == endpoint
  {
    EndpointKeepsBase(u, element);
    BasePartsAreSteady(u);
    SegmentsHoldNoSlash(element);
    PartsReadBack(NonEmpty(Segments(EscapedPath(u))), Segments(element));
  }

  lemma RootedJoinReadsBack(parts: seq<string>)
    requires parts != [] && forall part :: part in parts ==> '/' !in part && Printable(part)
    ensures var path := "/" + JoinSlash(parts);
            Segments(path) == [""] + parts && SetPath(path).Some? && EscapedPath(SetPath(path).value) == path
  {
    var path := "/" + JoinSlash(parts);
    SegmentsOfJoin(parts);
    assert path[1..] == JoinSlash(parts);
    JoinIsPrintable(parts);
    SlashIsPrintable();
    PrintableConcat("/", JoinSlash(parts));
    PrintedPathsAreParsedBack(path);
  }

  // --- the three endpoints ---

  predicate Word(text: string) {
    text != "" && forall c :: c in text ==> 'a' <= c <= 'z' || '0' <= c <= '9'
  }

  lemma {:induction false} WordsDecode(text: string)
    requires forall c :: c in text ==> 'a' <= c <= 'z' || '0' <= c <= '9'
    ensures Printable(text)
  {
    if text != "" {
      assert text[0] in text && forall c :: c in text[1..] ==> c in text;
      WordsDecode(text[1..]);
    }
  }

  lemma WordsAreSteady(words: seq<string>)
    requires words != [] && forall word :: word in words ==> Word(word)
    ensures Segments(JoinSlash(words)) == words && Steady(words)
    ensures forall word :: word in words ==> Printable(word)
  {
    forall word | word in words
      ensures word != "" && !Dotted(word) && Printable(word) && '/' !in word
    {
      WordsDecode(word);
      assert word[0] in word;
    }
    SegmentsOfJoin(words);
  }

  const AUTHORIZE: seq<string> := ["oauth", "authorize"]
  const TOKEN: seq<string> := ["oauth", "token"]
  const USER: seq<string> := ["api", "v4", "user"]

  lemma SuffixesAreWords()
    ensures forall words, word :: words in [AUTHORIZE, TOKEN, USER] && word in words ==> Word(word)
  {
  }

  lemma EndpointsOfBase(u: Path, suffix: seq<string>)
    requires Parsed(u) && Acceptable(u) && Rooted(EscapedPath(u)) && suffix in [AUTHORIZE, TOKEN, USER]
    ensures var endpoint := EndpointPath(EscapedPath(Trim(u)), JoinSlash(suffix));
            Segments(endpoint) == [""] + NonEmpty(Segments(EscapedPath(u))) + suffix
            && SetPath(endpoint).Some? && EscapedPath(SetPath(endpoint).value) == endpoint
  {
    SuffixesAreWords();
    WordsAreSteady(suffix);
    EndpointReadsBack(u, JoinSlash(suffix));
  }

  // The elements as the source writes them.
  lemma SuffixText()
    ensures JoinSlash(AUTHORIZE) == "oauth/authorize" && JoinSlash(TOKEN) == "oauth/token"
    ensures JoinSlash(USER) == "api/v4/user"
  {
    assert USER[1..] == ["v4", "user"] && USER[1..][1..] == ["user"];
    assert AUTHORIZE[1..] == ["authorize"] && TOKEN[1..] == ["token"];
  }
}
