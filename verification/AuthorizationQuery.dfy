// The query of an authorization URL (oauth2provider/provider.go and config.go): the endpoint's own
// parameters, the protocol's, the provider's and the request's, with protocol keys that no other
// layer may touch. Section 4.1.1 of RFC 6749 and section 4.3 of RFC 7636.

module AuthorizationQuery {
  import opened Text
  import opened UrlQuery

  const PROTECTED: set<string> := {
    "access_token", "client_id", "client_secret", "code", "code_challenge", "code_challenge_method", "code_verifier",
    "id_token", "redirect_uri", "refresh_token", "response_type", "scope", "state"
  }

  // strings.ToLower as far as ASCII results go: the letters A to Z, the Kelvin sign and the capital I
  // with a dot have ASCII lower case forms. All other letters keep bytes outside ASCII.
  function ToLower(s: string): string {
    if s == "" then ""
    else if |s| >= 3 && s[0] == '\U{E2}' && s[1] == '\U{84}' && s[2] == '\U{AA}' then ['k'] + ToLower(s[3..])
    else if |s| >= 2 && s[0] == '\U{C4}' && s[1] == '\U{B0}' then ['i'] + ToLower(s[2..])
    else [if 'A' <= s[0] <= 'Z' then s[0] - 'A' + 'a' else s[0]] + ToLower(s[1..])
  }

  predicate IsProtected(key: string) {
    ToLower(key) in PROTECTED
  }

  predicate Offends(key: string) {
    TrimSpace(key) == "" || IsProtected(key)
  }

  ghost predicate Invalid(parameters: Values) {
    exists key :: key in parameters && Offends(key)
  }

  method InvalidAuthorizationParameters(parameters: Values) returns (invalid: bool)
    ensures invalid <==> Invalid(parameters)
  {
    var left := parameters.Keys;
    while left != {}
      invariant left <= parameters.Keys
      invariant forall key :: key in parameters && key !in left ==> !Offends(key)
      decreases left
    {
      var key :| key in left;
      left := left - {key};
      if TrimSpace(key) == "" {
        return true;
      }
      if IsProtected(key) {
        return true;
      }
    }
    invalid := false;
  }

  // --- applying a layer ---

  // What a query is after a layer of parameters: each key the layer names gets exactly the layer's
  // values, and goes away if there are none.
  function Overlay(query: Values, parameters: Values): Values {
    map key | key in query.Keys + parameters.Keys && (key in parameters ==> parameters[key] != []) ::
      if key in parameters then parameters[key] else query[key]
  }

  // A url.Values, which the code updates in place.
  class Query {
    var values: Values

    constructor (values: Values)
      ensures this.values == values
    {
      this.values := values;
    }

    method Del(key: string)
      modifies this
      ensures values == old(values) - {key}
    {
      values := values - {key};
    }

    method Add(key: string, value: string)
      modifies this
      ensures values == old(values)[key := (if key in old(values) then old(values)[key] else []) + [value]]
    {
      values := values[key := (if key in values then values[key] else []) + [value]];
    }

    // The body of the loop below, for one key.
    method Replace(key: string, entries: seq<string>)
      modifies this
      ensures values == Overlay(old(values), map[key := entries])
    {
      Del(key);
      for i := 0 to |entries|
        invariant values == if i == 0 then old(values) - {key} else (old(values) - {key})[key := entries[..i]]
      {
        Add(key, entries[i]);
        assert entries[..i] + [entries[i]] == entries[..i + 1];
      }
      assert entries[..|entries|] == entries;
    }

    // applyAuthorizationParameters: the result does not depend on the order the map is visited in.
    method Apply(parameters: Values)
      modifies this
      ensures values == Overlay(old(values), parameters)
    {
      var left := parameters.Keys;
      while left != {}
        invariant left <= parameters.Keys
        invariant values == Overlay(old(values), parameters - left)
        decreases left
      {
        var key :| key in left;
        ghost var done := parameters - left;
        Replace(key, parameters[key]);
        left := left - {key};
        OverlayOneMore(old(values), done, key, parameters[key]);
        assert parameters - left == done[key := parameters[key]];
      }
      assert parameters - left == parameters;
    }
  }

  lemma OverlayOneMore(query: Values, done: Values, key: string, entries: seq<string>)
    requires key !in done
    ensures Overlay(Overlay(query, done), map[key := entries]) == Overlay(query, done[key := entries])
  {}

  // --- the authorization URL before the layers ---

  // The query part of a URL: what follows the first question mark, up to the first number sign.
  function RawQuery(url: string): string {
    After(Before(url, '#'), '?')
  }

  // oauth2.Config.AuthCodeURL for an encoded query.
  function AuthCodeURL(authURL: string, text: string): string {
    authURL + ([if '?' in authURL then '&' else '?'] + text)
  }

  // A query with further values added.
  function Merge(query: Values, more: Values): Values {
    map key | key in query.Keys + more.Keys ::
      (if key in query then query[key] else []) + (if key in more then more[key] else [])
  }

  lemma BeforeConcat(a: string, b: string)
    requires '#' !in a && '#' !in b
    ensures Before(a + b, '#') == a + b
  {
    CutNone(a + b, '#');
  }

  // Without a number sign in the endpoint, its parameters and the protocol's are both in the query;
  // with one, what AuthCodeURL appends is part of the fragment.
  lemma RawQueryOfAuthCodeURL(authURL: string, text: string)
    requires '#' !in text
    ensures '#' in authURL ==> RawQuery(AuthCodeURL(authURL, text)) == RawQuery(authURL)
    ensures '#' !in authURL ==>
              PairsOf(RawQuery(AuthCodeURL(authURL, text))) == PairsOf(RawQuery(authURL)) + PairsOf(text)
  {
    var tail := [if '?' in authURL then '&' else '?'] + text;
    if '#' in authURL {
      CutAny(authURL, '#', tail);
    } else {
      CutNone(authURL, '#');
      BeforeConcat(authURL, tail);
      if '?' in authURL {
        CutAny(authURL, '?', ['&'] + text);
        PairsOfConcat(After(authURL, '?'), text);
      } else {
        CutFirst(authURL, '?', text);
        CutNone(authURL, '?');
      }
    }
  }

  lemma CollectOfConcat(a: Pairs, b: Pairs)
    ensures Collect(a + b) == Merge(Collect(a), Collect(b))
  {
    forall key
      ensures key in Collect(a + b) <==> key in Merge(Collect(a), Collect(b))
      ensures key in Collect(a + b) ==> Collect(a + b)[key] == Merge(Collect(a), Collect(b))[key]
    {
      ValuesForConcat(a, b, key);
      CollectMeans(a, key);
      CollectMeans(b, key);
      CollectMeans(a + b, key);
    }
  }

  // What parsed.Query() returns in Begin.
  function BaseQuery(authURL: string, protocol: Values): Values {
    var endpoint := ParseQuery(RawQuery(authURL));
    if '#' in authURL then endpoint else Merge(endpoint, protocol)
  }

  lemma QueryOfAuthCodeURL(authURL: string, text: string, protocol: Values)
    requires Encodes(text, protocol) && ByteValues(protocol) && Named(protocol) == protocol
    ensures ParseQuery(RawQuery(AuthCodeURL(authURL, text))) == BaseQuery(authURL, protocol)
  {
    EncodedStaysInQuery(text, protocol);
    RawQueryOfAuthCodeURL(authURL, text);
    if '#' !in authURL {
      ParseOfEncoded(text, protocol);
      CollectOfConcat(PairsOf(RawQuery(authURL)), PairsOf(text));
    }
  }

  // --- which keys are refused ---

  // The names a caller may not set.
  const NAMES: set<string> := {
    "state", "scope", "client_id", "client_secret", "redirect_uri", "response_type", "code", "code_challenge",
    "code_challenge_method", "code_verifier", "access_token", "refresh_token", "id_token"
  }

  predicate Ascii(s: string) {
    forall i :: 0 <= i < |s| ==> s[i] < '\U{80}'
  }

  predicate SameLetter(c: char, d: char) {
    c == d || ('A' <= c <= 'Z' && c as int + 32 == d as int)
  }

  // Equal but for the case of letters, name being written in lower case.
  predicate Spells(key: string, name: string) {
    |key| == |name| && forall i :: 0 <= i < |key| ==> SameLetter(key[i], name[i])
  }

  predicate Lower(name: string) {
    forall i :: 0 <= i < |name| ==> !('A' <= name[i] <= 'Z')
  }

  lemma {:induction false} ToLowerOfAscii(key: string)
    requires Ascii(key)
    ensures |ToLower(key)| == |key| && Spells(key, ToLower(key)) && Lower(ToLower(key))
  {
    if key != "" {
      ToLowerOfAscii(key[1..]);
      var (rest, whole) := (ToLower(key[1..]), ToLower(key));
      assert forall i :: 1 <= i < |key| ==> key[i] == key[1..][i - 1] && whole[i] == rest[i - 1];
    }
  }

  lemma OneSpelling(key: string, name: string)
    requires Ascii(key) && Lower(name)
    ensures ToLower(key) == name <==> Spells(key, name)
  {
    ToLowerOfAscii(key);
    var lower := ToLower(key);
    if Spells(key, name) {
      assert forall i :: 0 <= i < |key| ==> lower[i] == name[i];
    }
  }

  lemma NamesAreLower(name: string)
    requires name in NAMES
    ensures Lower(name)
  {
  }

  lemma NamesAreProtected()
    ensures NAMES == PROTECTED
  {
  }

  // A key is refused exactly when it is only white space or spells a protected name in any case, as
  // far as it is written in ASCII.
  lemma RefusedKeys(key: string)
    requires Ascii(key)
    ensures Offends(key) <==> White(key) || exists name :: name in NAMES && Spells(key, name)
  {
    BlankMeansWhite(key);
    NamesAreProtected();
    if IsProtected(key) {
      NamesAreLower(ToLower(key));
      OneSpelling(key, ToLower(key));
    }
    if name :| name in NAMES && Spells(key, name) {
      NamesAreLower(name);
      OneSpelling(key, name);
    }
  }

  // Two letters outside ASCII have an ASCII lower case: a name written with the Kelvin sign or the
  // capital I with a dot is protected as well.
  lemma {:induction false} ToLowerConcat(a: string, b: string)
    requires Ascii(a)
    ensures ToLower(a + b) == ToLower(a) + ToLower(b)
  {
    if a == "" {
      assert a + b == b;
    } else {
      assert (a + b)[0] == a[0] && (a + b)[1..] == a[1..] + b;
      ToLowerConcat(a[1..], b);
    }
  }

  lemma KelvinSign(rest: string)
    ensures ToLower("\U{E2}\U{84}\U{AA}" + rest) == "k" + ToLower(rest)
    ensures ToLower("\U{C4}\U{B0}" + rest) == "i" + ToLower(rest)
  {
    assert ("\U{E2}\U{84}\U{AA}" + rest)[3..] == rest;
    assert ("\U{C4}\U{B0}" + rest)[2..] == rest;
  }

  // In place of the letter it stands for, either one changes nothing.
  lemma OtherLetters(front: string, rest: string)
    requires Ascii(front)
    ensures IsProtected(front + ("\U{E2}\U{84}\U{AA}" + rest)) <==> IsProtected(front + ("k" + rest))
    ensures IsProtected(front + ("\U{C4}\U{B0}" + rest)) <==> IsProtected(front + ("i" + rest))
  {
    KelvinSign(rest);
    ToLowerConcat("k", rest);
    ToLowerConcat("i", rest);
    ToLowerConcat(front, "\U{E2}\U{84}\U{AA}" + rest);
    ToLowerConcat(front, "\U{C4}\U{B0}" + rest);
    ToLowerConcat(front, "k" + rest);
    ToLowerConcat(front, "i" + rest);
  }
}
