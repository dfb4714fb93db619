// Query strings (net/url's Values, as oauth2provider/provider.go uses them): escaping, encoding in
// key order, and parsing back.

module UrlQuery {
  import opened Wrappers
  import opened Text
  import opened Sorting

  // url.Values; a key with an empty list is present, but encodes to nothing.
  type Values = map<string, seq<string>>

  type Pairs = seq<(string, string)>

  // --- escaping one key or value ---

  predicate Plain(c: char) {
    'A' <= c <= 'Z' || 'a' <= c <= 'z' || '0' <= c <= '9' || c == '-' || c == '_' || c == '.' || c == '~'
  }

  function HexDigit(n: nat): char
    requires n < 16
  {
    if n < 10 then '0' + n as char else 'A' + (n - 10) as char
  }

  function HexValue(c: char): (v: Option<nat>)
    ensures v.Some? ==> v.value < 16
  {
    if '0' <= c <= '9' then Some(c as int - '0' as int)
    else if 'a' <= c <= 'f' then Some(c as int - 'a' as int + 10)
    else if 'A' <= c <= 'F' then Some(c as int - 'A' as int + 10)
    else None
  }

  // Written for every char; only bytes occur.
  function EscapeByte(c: char): string {
    if Plain(c) then [c]
    else if c == ' ' then "+"
    else ['%', HexDigit(c as int / 16 % 16), HexDigit(c as int % 16)]
  }

  function Escape(s: string): string {
    if s == "" then "" else EscapeByte(s[0]) + Escape(s[1..])
  }

  function Unescape(s: string): Option<string> {
    if s == "" then Some("")
    else if s[0] == '%' then
      if |s| < 3 then None
      else match (HexValue(s[1]), HexValue(s[2]), Unescape(s[3..]))
           case (Some(high), Some(low), Some(rest)) => Some([(high * 16 + low) as char] + rest)
           case _ => None
    else match Unescape(s[1..])
         case Some(rest) => Some([if s[0] == '+' then ' ' else s[0]] + rest)
         case None => None
  }

  // What an escaped string is made of.
  predicate Escaped(c: char) {
    Plain(c) || c == '+' || c == '%'
  }

  predicate AllEscaped(s: string) {
    forall c :: c in s ==> Escaped(c)
  }

  lemma HexRoundTrip(n: nat)
    requires n < 16
    ensures HexValue(HexDigit(n)) == Some(n) && Plain(HexDigit(n))
  {}

  lemma UnescapeDigits(n: nat, rest: string, tail: string)
    requires n < 256 && Unescape(rest) == Some(tail)
    ensures Unescape(['%', HexDigit(n / 16), HexDigit(n % 16)] + rest) == Some([n as char] + tail)
  {
    var s := ['%', HexDigit(n / 16), HexDigit(n % 16)] + rest;
    HexRoundTrip(n / 16);
    HexRoundTrip(n % 16);
    assert s[3..] == rest;
  }

  lemma EscapedByDigits(n: nat)
    requires n < 256 && !Plain(n as char) && n as char != ' '
    ensures EscapeByte(n as char) == ['%', HexDigit(n / 16), HexDigit(n % 16)]
  {
    assert n / 16 < 16;
  }

  lemma UnescapeByte(c: char, rest: string, tail: string)
    requires c as int < 256 && Unescape(rest) == Some(tail)
    ensures Unescape(EscapeByte(c) + rest) == Some([c] + tail)
  {
    if Plain(c) || c == ' ' {
      assert (EscapeByte(c) + rest)[1..] == rest;
    } else {
      EscapedByDigits(c as int);
      UnescapeDigits(c as int, rest, tail);
    }
  }

  lemma {:induction false} UnescapeEscape(s: string)
    requires IsBytes(s)
    ensures Unescape(Escape(s)) == Some(s)
  {
    if s != "" {
      UnescapeEscape(s[1..]);
      UnescapeByte(s[0], Escape(s[1..]), s[1..]);
      assert s == [s[0]] + s[1..];
    }
  }

  lemma {:induction false} EscapeIsEscaped(s: string)
    ensures AllEscaped(Escape(s))
  {
    if s != "" {
      EscapeIsEscaped(s[1..]);
      HexRoundTrip(s[0] as int / 16 % 16);
      HexRoundTrip(s[0] as int % 16);
    }
  }

  // --- cutting at the first occurrence of a character ---

  function Before(s: string, c: char): (r: string)
    ensures c !in r && |r| <= |s|
  {
    if s == "" || s[0] == c then "" else [s[0]] + Before(s[1..], c)
  }

  function After(s: string, c: char): (r: string)
    ensures c in s ==> |r| < |s|
    ensures c !in s ==> r == ""
  {
    if s == "" then "" else if s[0] == c then s[1..] else After(s[1..], c)
  }

  lemma {:induction false} CutFirst(a: string, c: char, b: string)
    requires c !in a
    ensures Before(a + ([c] + b), c) == a && After(a + ([c] + b), c) == b
  {
    var s := a + ([c] + b);
    if a == "" {
      assert s == [c] + b;
    } else {
      assert s[0] == a[0] && s[1..] == a[1..] + ([c] + b);
      CutFirst(a[1..], c, b);
      assert a == [a[0]] + a[1..];
    }
  }

  lemma {:induction false} CutNone(a: string, c: char)
    requires c !in a
    ensures Before(a, c) == a && After(a, c) == ""
  {
    if a != "" {
      CutNone(a[1..], c);
      assert a == [a[0]] + a[1..];
    }
  }

  lemma {:induction false} CutAny(a: string, c: char, b: string)
    requires c in a
    ensures Before(a + b, c) == Before(a, c) && After(a + b, c) == After(a, c) + b
  {
    assert (a + b)[0] == a[0] && (a + b)[1..] == a[1..] + b;
    if a[0] != c {
      CutAny(a[1..], c, b);
    }
  }

  // --- parsing ---

  // One segment between ampersands; a malformed one is dropped.
  function PairOf(segment: string): Pairs {
    if segment == "" || ';' in segment then []
    else PairFrom(Unescape(Before(segment, '=')), Unescape(After(segment, '=')))
  }

  function PairFrom(key: Option<string>, value: Option<string>): Pairs {
    if key.Some? && value.Some? then [(key.value, value.value)] else []
  }

  // The pairs of a query string, in order.
  function PairsOf(query: string): Pairs
    decreases |query|
  {
    if query == "" then []
    else if '&' in query then PairOf(Before(query, '&')) + PairsOf(After(query, '&'))
    else PairOf(query)
  }

  function ValuesFor(pairs: Pairs, key: string): seq<string> {
    if pairs == [] then []
    else (if pairs[0].0 == key then [pairs[0].1] else []) + ValuesFor(pairs[1..], key)
  }

  // The pairs grouped by key, as parsed.Query() returns them.
  function Collect(pairs: Pairs): Values {
    var keys := set pair | pair in pairs :: pair.0;
    map key | key in keys :: ValuesFor(pairs, key)
  }

  function ParseQuery(query: string): Values {
    Collect(PairsOf(query))
  }

  lemma {:induction false} CollectMeans(pairs: Pairs, key: string)
    ensures key in Collect(pairs) <==> ValuesFor(pairs, key) != []
    ensures key in Collect(pairs) ==> Collect(pairs)[key] == ValuesFor(pairs, key)
  {
    if pairs != [] {
      CollectMeans(pairs[1..], key);
      assert pairs == [pairs[0]] + pairs[1..];
      assert key in Collect(pairs) <==> exists pair :: pair in pairs && pair.0 == key;
      assert key in Collect(pairs[1..]) <==> exists pair :: pair in pairs[1..] && pair.0 == key;
    }
  }

  lemma ThreeLists(a: seq<string>, b: seq<string>, c: seq<string>)
    ensures a + (b + c) == a + b + c
  {
  }

  lemma RestOfConcat(a: Pairs, b: Pairs)
    requires a != []
    ensures (a + b)[0] == a[0] && (a + b)[1..] == a[1..] + b
  {
  }

  lemma {:induction false} ValuesForConcat(a: Pairs, b: Pairs, key: string)
    ensures ValuesFor(a + b, key) == ValuesFor(a, key) + ValuesFor(b, key)
  {
    if a == [] {
      assert a + b == b;
    } else {
      RestOfConcat(a, b);
      ValuesForConcat(a[1..], b, key);
      var first := if a[0].0 == key then [a[0].1] else [];
      ThreeLists(first, ValuesFor(a[1..], key), ValuesFor(b, key));
    }
  }

  // A query string after another one adds its pairs after the other's.
  lemma {:induction false} PairsOfConcat(a: string, b: string)
    ensures PairsOf(a + (['&'] + b)) == PairsOf(a) + PairsOf(b)
    decreases |a|
  {
    if '&' in a {
      var (segment, rest) := (Before(a, '&'), After(a, '&'));
      CutAny(a, '&', ['&'] + b);
      PairsOfConcat(rest, b);
      assert PairOf(segment) + (PairsOf(rest) + PairsOf(b)) == PairOf(segment) + PairsOf(rest) + PairsOf(b);
    } else {
      PairsOfFirst(a, b);
    }
  }

  lemma PairsOfFirst(segment: string, b: string)
    requires '&' !in segment
    ensures PairsOf(segment) == PairOf(segment) && PairsOf(segment + (['&'] + b)) == PairOf(segment) + PairsOf(b)
  {
    CutFirst(segment, '&', b);
  }

  // --- encoding ---

  // Go strings hold bytes.
  ghost predicate BytePairs(pairs: Pairs) {
    forall pair :: pair in pairs ==> IsBytes(pair.0) && IsBytes(pair.1)
  }

  ghost predicate ByteValues(values: Values) {
    forall key :: key in values ==> IsBytes(key) && forall value :: value in values[key] ==> IsBytes(value)
  }

  function EncodePair(pair: (string, string)): string {
    Escape(pair.0) + (['='] + Escape(pair.1))
  }

  function EncodePairs(pairs: Pairs): string {
    if pairs == [] then ""
    else if |pairs| == 1 then EncodePair(pairs[0])
    else EncodePair(pairs[0]) + (['&'] + EncodePairs(pairs[1..]))
  }

  lemma EscapedHasNo(k: string, v: string, c: char)
    requires AllEscaped(k) && AllEscaped(v) && !Escaped(c) && c != '='
    ensures c !in k + (['='] + v)
  {
    assert c !in k && c !in v;
  }

  lemma PairOfCut(k: string, v: string)
    requires '=' !in k && ';' !in k + (['='] + v)
    ensures PairOf(k + (['='] + v)) == PairFrom(Unescape(k), Unescape(v))
  {
    CutFirst(k, '=', v);
  }

  lemma EncodedHasNo(pair: (string, string), c: char)
    requires !Escaped(c) && c != '='
    ensures c !in EncodePair(pair)
  {
    EscapeIsEscaped(pair.0);
    EscapeIsEscaped(pair.1);
    EscapedHasNo(Escape(pair.0), Escape(pair.1), c);
  }

  lemma PairOfEncoded(pair: (string, string))
    requires IsBytes(pair.0) && IsBytes(pair.1)
    ensures PairOf(EncodePair(pair)) == [pair]
  {
    UnescapeEscape(pair.0);
    UnescapeEscape(pair.1);
    EscapeIsEscaped(pair.0);
    EncodedHasNo(pair, ';');
    PairOfCut(Escape(pair.0), Escape(pair.1));
  }

  // Parsing an encoded list of pairs gives it back.
  lemma {:induction false} PairsOfEncoded(pairs: Pairs)
    requires BytePairs(pairs)
    ensures PairsOf(EncodePairs(pairs)) == pairs
  {
    if pairs != [] {
      var (first, rest) := (pairs[0], pairs[1..]);
      assert pairs == [first] + rest;
      PairOfEncoded(first);
      EncodedHasNo(first, '&');
      var segment := EncodePair(first);
      PairsOfFirst(segment, "");
      if rest != [] {
        PairsOfEncoded(rest);
        PairsOfConcat(segment, EncodePairs(rest));
      }
    }
  }

  // The text has no character that would end the query part of a URL.
  lemma {:induction false} EncodedHasNoFragment(pairs: Pairs)
    ensures '#' !in EncodePairs(pairs)
  {
    if pairs != [] {
      EncodedHasNo(pairs[0], '#');
      EncodedHasNoFragment(pairs[1..]);
    }
  }

  function PairsFor(key: string, values: seq<string>): Pairs {
    if values == [] then [] else [(key, values[0])] + PairsFor(key, values[1..])
  }

  // All values of some keys, in the order of the keys.
  function Flatten(keys: seq<string>, values: Values): Pairs
    requires forall key :: key in keys ==> key in values
  {
    if keys == [] then [] else PairsFor(keys[0], values[keys[0]]) + Flatten(keys[1..], values)
  }

  lemma {:induction false} ValuesForPairsFor(key: string, values: seq<string>, other: string)
    ensures ValuesFor(PairsFor(key, values), other) == if other == key then values else []
  {
    if values != [] {
      ValuesForPairsFor(key, values[1..], other);
      assert PairsFor(key, values)[1..] == PairsFor(key, values[1..]);
      assert values == [values[0]] + values[1..];
    }
  }

  lemma {:induction false} ValuesForFlatten(keys: seq<string>, values: Values, key: string)
    requires Distinct(keys) && forall k :: k in keys ==> k in values
    ensures ValuesFor(Flatten(keys, values), key) == if key in keys then values[key] else []
  {
    if keys != [] {
      ValuesForFlatten(keys[1..], values, key);
      ValuesForPairsFor(keys[0], values[keys[0]], key);
      ValuesForConcat(PairsFor(keys[0], values[keys[0]]), Flatten(keys[1..], values), key);
      assert keys == [keys[0]] + keys[1..];
      assert key == keys[0] ==> key !in keys[1..];
    }
  }

  // url.Values.Encode: by ascending key.
  ghost predicate Encodes(text: string, values: Values) {
    exists keys :: StrictlyAscending(keys) && Elements(keys) == values.Keys && EncodesBy(text, keys, values)
  }

  ghost predicate EncodesBy(text: string, keys: seq<string>, values: Values) {
    && (forall key :: key in keys ==> key in values)
    && text == EncodePairs(Flatten(keys, values))
  }

  // Values without the keys whose list is empty.
  function Named(values: Values): Values {
    map key | key in values && values[key] != [] :: values[key]
  }

  lemma AscendingIsDistinct(keys: seq<string>)
    requires StrictlyAscending(keys)
    ensures Distinct(keys)
  {
    forall i, j | 0 <= i < j < |keys| ensures keys[i] != keys[j] {
      LessIsStrict(keys[i], keys[j]);
    }
  }

  // Encoding is unambiguous: whatever order a map is visited in, there is one text, and parsing it
  // gives the values back.
  lemma EncodingIsUnique(text: string, other: string, values: Values)
    requires Encodes(text, values) && Encodes(other, values)
    ensures text == other
  {
    var keys :| StrictlyAscending(keys) && Elements(keys) == values.Keys && EncodesBy(text, keys, values);
    var keys2 :| StrictlyAscending(keys2) && Elements(keys2) == values.Keys && EncodesBy(other, keys2, values);
    AscendingIsUnique(keys, keys2);
  }

  lemma PairsOfText(text: string, values: Values) returns (keys: seq<string>)
    requires Encodes(text, values) && ByteValues(values)
    ensures Distinct(keys) && Elements(keys) == values.Keys && (forall key :: key in keys ==> key in values)
    ensures PairsOf(text) == Flatten(keys, values)
  {
    keys :| StrictlyAscending(keys) && Elements(keys) == values.Keys && EncodesBy(text, keys, values);
    AscendingIsDistinct(keys);
    FlattenIsBytes(keys, values);
    PairsOfEncoded(Flatten(keys, values));
  }

  lemma EncodedStaysInQuery(text: string, values: Values)
    requires Encodes(text, values)
    ensures '#' !in text
  {
    var keys :| StrictlyAscending(keys) && Elements(keys) == values.Keys && EncodesBy(text, keys, values);
    EncodedHasNoFragment(Flatten(keys, values));
  }

  lemma CollectOfFlatten(keys: seq<string>, values: Values, key: string)
    requires Distinct(keys) && Elements(keys) == values.Keys && forall k :: k in keys ==> k in values
    ensures ValuesFor(Flatten(keys, values), key) == if key in values then values[key] else []
    ensures key in Collect(Flatten(keys, values)) <==> key in Named(values)
    ensures key in Named(values) ==> Collect(Flatten(keys, values))[key] == values[key]
  {
    assert key in keys <==> key in Elements(keys);
    ValuesForFlatten(keys, values, key);
    CollectMeans(Flatten(keys, values), key);
  }

  // What a query string holds is decided by the values it encodes.
  lemma ParseOfEncoded(text: string, values: Values)
    requires Encodes(text, values) && ByteValues(values)
    ensures ParseQuery(text) == Named(values)
  {
    var keys := PairsOfText(text, values);
    var pairs := Flatten(keys, values);
    forall key
      ensures key in Collect(pairs) <==> key in Named(values)
      ensures key in Named(values) ==> Collect(pairs)[key] == Named(values)[key]
    {
      CollectOfFlatten(keys, values, key);
    }
  }

  method Encode(values: Values) returns (text: string)
    ensures Encodes(text, values)
  {
    var keys := Ascending(values.Keys);
    assert forall key :: key in keys ==> key in Elements(keys);
    text := EncodePairs(Flatten(keys, values));
    assert EncodesBy(text, keys, values);
  }

  lemma {:induction false} FlattenIsBytes(keys: seq<string>, values: Values)
    requires ByteValues(values) && forall key :: key in keys ==> key in values
    ensures BytePairs(Flatten(keys, values))
  {
    if keys != [] {
      assert keys[0] in keys;
      PairsForIsBytes(keys[0], values[keys[0]]);
      FlattenIsBytes(keys[1..], values);
    }
  }

  lemma {:induction false} PairsForIsBytes(key: string, values: seq<string>)
    requires IsBytes(key) && forall value :: value in values ==> IsBytes(value)
    ensures BytePairs(PairsFor(key, values))
  {
    if values != [] {
      PairsForIsBytes(key, values[1..]);
    }
  }

  // --- parsing bytes gives bytes ---

  lemma {:induction false} UnescapeIsBytes(s: string)
    requires IsBytes(s)
    ensures Unescape(s).Some? ==> IsBytes(Unescape(s).value)
  {
    if s != "" && Unescape(s).Some? {
      UnescapeIsBytes(s[if s[0] == '%' then 3 else 1..]);
    }
  }

  lemma {:induction false} CutIsBytes(s: string, c: char)
    requires IsBytes(s)
    ensures IsBytes(Before(s, c)) && IsBytes(After(s, c))
  {
    if s != "" && s[0] != c {
      CutIsBytes(s[1..], c);
    }
  }

  lemma PairOfIsBytes(segment: string)
    requires IsBytes(segment)
    ensures BytePairs(PairOf(segment))
  {
    CutIsBytes(segment, '=');
    UnescapeIsBytes(Before(segment, '='));
    UnescapeIsBytes(After(segment, '='));
  }

  lemma {:induction false} PairsOfIsBytes(query: string)
    requires IsBytes(query)
    ensures BytePairs(PairsOf(query))
    decreases |query|
  {
    CutIsBytes(query, '&');
    if query == "" {
    } else if '&' in query {
      PairOfIsBytes(Before(query, '&'));
      PairsOfIsBytes(After(query, '&'));
    } else {
      PairOfIsBytes(query);
    }
  }

  lemma {:induction false} ValuesForIsBytes(pairs: Pairs, key: string)
    requires BytePairs(pairs)
    ensures forall value :: value in ValuesFor(pairs, key) ==> IsBytes(value)
  {
    if pairs != [] {
      assert pairs[0] in pairs;
      ValuesForIsBytes(pairs[1..], key);
    }
  }

  lemma ParseIsProper(query: string)
    requires IsBytes(query)
    ensures ByteValues(ParseQuery(query)) && Named(ParseQuery(query)) == ParseQuery(query)
  {
    var pairs := PairsOf(query);
    PairsOfIsBytes(query);
    forall key | key in Collect(pairs)
      ensures IsBytes(key) && Collect(pairs)[key] != [] && forall value :: value in Collect(pairs)[key] ==> IsBytes(value)
    {
      CollectMeans(pairs, key);
      ValuesForIsBytes(pairs, key);
    }
  }

  // --- the text itself ---

  // Letters, digits and four more characters stand for themselves, a space becomes a plus sign, and
  // any other byte two upper case hexadecimal digits.
  lemma EscapedByte(c: char)
    requires c as int < 256
    ensures if ('a' <= c <= 'z') || ('A' <= c <= 'Z') || ('0' <= c <= '9') || c in "-_.~" then EscapeByte(c) == [c]
            else if c == ' ' then EscapeByte(c) == "+"
            else EscapeByte(c) == ['%', "0123456789ABCDEF"[c as int / 16], "0123456789ABCDEF"[c as int % 16]]
  {
    HexDigitByName(c as int / 16);
    HexDigitByName(c as int % 16);
  }

  lemma HexDigitByName(n: nat)
    requires n < 16
    ensures HexDigit(n) == "0123456789ABCDEF"[n]
  {
  }

  lemma {:induction false} EscapeConcat(a: string, b: string)
    ensures Escape(a + b) == Escape(a) + Escape(b)
    decreases |a|
  {
    if a == "" {
      assert a + b == b;
    } else {
      assert (a + b)[0] == a[0] && (a + b)[1..] == a[1..] + b;
      EscapeConcat(a[1..], b);
    }
  }

  predicate IsHexDigit(c: char) {
    c in "0123456789abcdefABCDEF"
  }

  // A percent sign that two hexadecimal digits do not follow.
  ghost predicate BrokenAt(s: string, i: int) {
    0 <= i < |s| && s[i] == '%' && !(i + 2 < |s| && IsHexDigit(s[i + 1]) && IsHexDigit(s[i + 2]))
  }

  ghost predicate Broken(s: string) {
    exists i :: BrokenAt(s, i)
  }

  // Either case of a digit is read.
  lemma HexValueByDigit(n: nat)
    requires n < 16
    ensures HexValue("0123456789ABCDEF"[n]) == Some(n) && HexValue("0123456789abcdef"[n]) == Some(n)
  {
  }

  lemma HexValueByName(c: char)
    ensures HexValue(c).Some? <==> IsHexDigit(c)
  {
  }

  lemma BrokenRest(s: string, n: nat, i: int)
    requires n <= i && n <= |s|
    ensures BrokenAt(s[n..], i - n) <==> BrokenAt(s, i)
  {
    var rest := s[n..];
    assert forall k :: n <= k < |s| ==> rest[k - n] == s[k];
  }

  lemma BrokenLater(s: string, n: nat)
    requires n <= |s| && forall i :: 0 <= i < n ==> !BrokenAt(s, i)
    ensures Broken(s) <==> Broken(s[n..])
  {
    if i :| BrokenAt(s, i) {
      BrokenRest(s, n, i);
    }
    if i :| BrokenAt(s[n..], i) {
      BrokenRest(s, n, n + i);
    }
  }

  lemma BrokenByValue(s: string)
    requires s != ""
    ensures BrokenAt(s, 0) <==> s[0] == '%' && (|s| < 3 || HexValue(s[1]).None? || HexValue(s[2]).None?)
  {
    if |s| > 2 {
      HexValueByName(s[1]);
      HexValueByName(s[2]);
    }
  }

  lemma NotBroken(s: string, i: int)
    requires 0 <= i < |s| && s[i] != '%'
    ensures !BrokenAt(s, i)
  {
  }

  // The first character, or the first escape.
  lemma BrokenFirst(s: string)
    requires s != ""
    ensures var n := if s[0] == '%' then 3 else 1;
            if n == 3 && (|s| < 3 || HexValue(s[1]).None? || HexValue(s[2]).None?) then Broken(s)
            else Broken(s) <==> Broken(s[n..])
  {
    BrokenByValue(s);
    if s[0] != '%' {
      BrokenAfterOne(s);
    } else if !BrokenAt(s, 0) {
      BrokenAfterThree(s);
    }
  }

  lemma BrokenAfterOne(s: string)
    requires s != "" && s[0] != '%'
    ensures Broken(s) <==> Broken(s[1..])
  {
    NotBroken(s, 0);
    BrokenLater(s, 1);
  }

  lemma BrokenAfterThree(s: string)
    requires |s| >= 3 && !BrokenAt(s, 0) && s[1] != '%' && s[2] != '%'
    ensures Broken(s) <==> Broken(s[3..])
  {
    NotBroken(s, 1);
    NotBroken(s, 2);
    BrokenLater(s, 3);
  }

  // Unescaping fails exactly on a broken escape.
  lemma {:induction false} UnescapeFails(s: string)
    ensures Unescape(s).None? <==> Broken(s)
  {
    if s != "" {
      BrokenFirst(s);
      if s[0] != '%' {
        UnescapeFails(s[1..]);
      } else if |s| >= 3 {
        UnescapeFails(s[3..]);
      }
    }
  }

  // What a segment of a query amounts to: a pair if both sides of its first equals sign unescape, the
  // right one empty if there is none; nothing if it is empty, holds a semicolon or does not unescape.
  lemma SegmentMeans(k: string, v: string)
    requires '=' !in k
    ensures PairOf(k + (['='] + v)) ==
            if ';' in k || ';' in v || Unescape(k).None? || Unescape(v).None? then []
            else [(Unescape(k).value, Unescape(v).value)]
    ensures PairOf(k) == if k == "" || ';' in k || Unescape(k).None? then [] else [(Unescape(k).value, "")]
  {
    var segment := k + (['='] + v);
    assert ';' in segment <==> ';' in k || ';' in v;
    CutFirst(k, '=', v);
    CutNone(k, '=');
  }

  function Ampersands(segments: seq<string>): string {
    if segments == [] then ""
    else if |segments| == 1 then segments[0]
    else segments[0] + (['&'] + Ampersands(segments[1..]))
  }

  function AllPairs(segments: seq<string>): Pairs {
    if segments == [] then [] else PairOf(segments[0]) + AllPairs(segments[1..])
  }

  // The segments between ampersands are taken one by one, in order.
  lemma {:induction false} PairsBySegment(segments: seq<string>)
    requires forall segment :: segment in segments ==> '&' !in segment
    ensures PairsOf(Ampersands(segments)) == AllPairs(segments)
  {
    if segments != [] {
      assert segments[0] in segments;
      PairsBySegment(segments[1..]);
      PairsOfFirst(segments[0], Ampersands(segments[1..]));
    }
  }
}
