// Scope lists (oauth2provider/provider.go): a token response may give them as one string, a list of
// strings or raw JSON. Section 3.3 of RFC 6749 separates them by spaces.

module Scopes {
  import opened Wrappers

  predicate IsSeparator(c: char) {
    c == ',' || c == ' ' || c == '\t' || c == '\r' || c == '\n'
  }

  predicate AllSeparators(s: string) {
    forall i :: 0 <= i < |s| ==> IsSeparator(s[i])
  }

  // A nonempty string without separators.
  predicate IsScope(s: string) {
    s != "" && forall i :: 0 <= i < |s| ==> !IsSeparator(s[i])
  }

  // How many characters come before the first separator.
  function ScopeLength(s: string): (n: nat)
    ensures n <= |s| && (forall i :: 0 <= i < n ==> !IsSeparator(s[i])) && (n < |s| ==> IsSeparator(s[n]))
  {
    if s == "" || IsSeparator(s[0]) then 0 else 1 + ScopeLength(s[1..])
  }

  // splitScopeString, which is strings.FieldsFunc.
  function Split(s: string): (scopes: seq<string>)
    ensures forall i :: 0 <= i < |scopes| ==> IsScope(scopes[i])
    decreases |s|
  {
    if s == "" then []
    else if IsSeparator(s[0]) then Split(s[1..])
    else [s[..ScopeLength(s)]] + Split(s[ScopeLength(s)..])
  }

  function Concat(parts: seq<string>): string {
    if parts == [] then "" else parts[0] + Concat(parts[1..])
  }

  function WithoutSeparators(s: string): string {
    if s == "" then "" else (if IsSeparator(s[0]) then "" else [s[0]]) + WithoutSeparators(s[1..])
  }

  lemma {:induction false} WithoutSeparatorsOfPrefix(s: string, n: nat)
    requires n <= |s| && forall i :: 0 <= i < n ==> !IsSeparator(s[i])
    ensures WithoutSeparators(s) == s[..n] + WithoutSeparators(s[n..])
  {
    if n > 0 {
      WithoutSeparatorsOfPrefix(s[1..], n - 1);
      assert s[..n] == [s[0]] + s[1..][..n - 1];
      assert s[1..][n - 1..] == s[n..];
    }
  }

  // Nothing but separators is lost, and nothing is reordered.
  lemma {:induction false} SplitKeepsContent(s: string)
    ensures Concat(Split(s)) == WithoutSeparators(s)
    decreases |s|
  {
    if s == "" {
    } else if IsSeparator(s[0]) {
      SplitKeepsContent(s[1..]);
    } else {
      var n := ScopeLength(s);
      WithoutSeparatorsOfPrefix(s, n);
      SplitKeepsContent(s[n..]);
      assert Split(s)[1..] == Split(s[n..]);
    }
  }

  // Scopes with gaps between them: gaps[i] follows scopes[i].
  function Spread(scopes: seq<string>, gaps: seq<string>): string
    requires |scopes| == |gaps|
  {
    if scopes == [] then "" else scopes[0] + (gaps[0] + Spread(scopes[1..], gaps[1..]))
  }

  predicate ProperGaps(gaps: seq<string>) {
    && (forall i :: 0 <= i < |gaps| ==> AllSeparators(gaps[i]))
    && (forall i :: 0 <= i < |gaps| - 1 ==> gaps[i] != "")
  }

  lemma {:induction false} SplitSkips(gap: string, rest: string)
    requires AllSeparators(gap)
    ensures Split(gap + rest) == Split(rest)
  {
    if gap == "" {
      assert gap + rest == rest;
    } else {
      assert (gap + rest)[0] == gap[0] && (gap + rest)[1..] == gap[1..] + rest;
      SplitSkips(gap[1..], rest);
    }
  }

  lemma SplitTakes(scope: string, rest: string)
    requires IsScope(scope) && (rest == "" || IsSeparator(rest[0]))
    ensures Split(scope + rest) == [scope] + Split(rest)
  {
    var s := scope + rest;
    var n := ScopeLength(s);
    assert forall i :: 0 <= i < |scope| ==> s[i] == scope[i];
    assert rest != "" ==> s[|scope|] == rest[0];
    assert n == |scope|;
    assert s[..n] == scope && s[n..] == rest;
  }

  // Splitting finds exactly the scopes a string was put together from, whatever separators lie
  // before, between and after them.
  lemma {:induction false} SplitOfSpread(lead: string, scopes: seq<string>, gaps: seq<string>)
    requires |scopes| == |gaps| && ProperGaps(gaps) && AllSeparators(lead)
    requires forall i :: 0 <= i < |scopes| ==> IsScope(scopes[i])
    ensures Split(lead + Spread(scopes, gaps)) == scopes
    decreases |scopes|
  {
    SplitSkips(lead, Spread(scopes, gaps));
    if scopes != [] {
      var rest := gaps[0] + Spread(scopes[1..], gaps[1..]);
      SplitTakes(scopes[0], rest);
      SplitOfSpread(gaps[0], scopes[1..], gaps[1..]);
    }
  }

  function Join(scopes: seq<string>, separator: string): string {
    if scopes == [] then ""
    else if |scopes| == 1 then scopes[0]
    else scopes[0] + (separator + Join(scopes[1..], separator))
  }

  // In particular, joining with a space, as an authorization request does, or with a comma is undone.
  lemma {:induction false} SplitOfJoin(scopes: seq<string>, separator: string)
    requires separator != "" && AllSeparators(separator)
    requires forall i :: 0 <= i < |scopes| ==> IsScope(scopes[i])
    ensures Split(Join(scopes, separator)) == scopes
  {
    if |scopes| == 1 {
      SplitTakes(scopes[0], "");
      assert scopes[0] + "" == scopes[0];
    } else if |scopes| > 1 {
      var rest := separator + Join(scopes[1..], separator);
      SplitTakes(scopes[0], rest);
      SplitSkips(separator, Join(scopes[1..], separator));
      SplitOfJoin(scopes[1..], separator);
    }
  }

  // The separators by name: a scope is nonempty text without any of them, and each of them separates.
  lemma ScopesByName(scopes: seq<string>, separator: string)
    requires separator in {" ", ",", "\t", "\r", "\n"}
    requires forall i :: 0 <= i < |scopes| ==>
               scopes[i] != "" && forall c :: c in scopes[i] ==> c != ' ' && c != ',' && c != '\t' && c != '\r' && c != '\n'
    ensures Split(Join(scopes, separator)) == scopes
  {
    assert |separator| == 1 && IsSeparator(separator[0]);
    forall i | 0 <= i < |scopes|
      ensures IsScope(scopes[i])
    {
      assert forall k :: 0 <= k < |scopes[i]| ==> scopes[i][k] in scopes[i];
    }
    SplitOfJoin(scopes, separator);
  }

  // The scope field of a token response; Items holds the entries of a JSON list, None for those that
  // are not strings, and Raw what decoding the raw JSON as a string or a list of strings would give.
  datatype Extra =
    | Missing
    | Text(text: string)
    | Texts(texts: Option<seq<string>>)
    | Items(items: seq<Option<string>>)
    | Raw(asText: Option<string>, asTexts: Option<seq<string>>)

  function Strings(items: seq<Option<string>>): seq<string> {
    if items == [] then []
    else (if items[0].Some? then [items[0].value] else []) + Strings(items[1..])
  }

  // What extractScopes comes to; None is Go's nil slice, which means that the scopes are unknown.
  function Extracted(extra: Extra): Option<seq<string>> {
    match extra
    case Missing => None
    case Text(text) => Some(Split(text))
    case Texts(texts) => texts
    case Items(items) => Some(Strings(items))
    case Raw(asText, asTexts) => if asText.Some? then Some(Split(asText.value)) else asTexts
  }

  method CollectStrings(items: seq<Option<string>>) returns (result: seq<string>)
    ensures result == Strings(items)
  {
    result := [];
    for i := 0 to |items|
      invariant result + Strings(items[i..]) == Strings(items)
    {
      var rest := items[i..];
      assert rest[1..] == items[i + 1..];
      if items[i].Some? {
        assert result + ([items[i].value] + Strings(rest[1..])) == result + [items[i].value] + Strings(rest[1..]);
        result := result + [items[i].value];
      }
    }
    assert items[|items|..] == [];
  }

  method ExtractScopes(extra: Extra) returns (scopes: Option<seq<string>>)
    ensures scopes == Extracted(extra)
  {
    match extra
    case Missing => scopes := None;
    case Text(text) => scopes := Some(Split(text));
    case Texts(texts) => scopes := texts;
    case Items(items) =>
      var result := CollectStrings(items);
      scopes := Some(result);
    case Raw(asText, asTexts) =>
      scopes := if asText.Some? then Some(Split(asText.value)) else asTexts;
  }

  // --- what the scope field of a response means ---

  // The text is these scopes with separators before, between and after them.
  ghost predicate SplitsInto(text: string, scopes: seq<string>) {
    && (forall i :: 0 <= i < |scopes| ==> IsScope(scopes[i]))
    && exists lead, gaps: seq<string> ::
         |gaps| == |scopes| && ProperGaps(gaps) && AllSeparators(lead) && text == lead + Spread(scopes, gaps)
  }

  lemma {:induction false} TextSplits(s: string) returns (lead: string, gaps: seq<string>)
    ensures |gaps| == |Split(s)| && ProperGaps(gaps) && AllSeparators(lead) && s == lead + Spread(Split(s), gaps)
    ensures lead != "" <==> s != "" && IsSeparator(s[0])
    decreases |s|
  {
    if s == "" {
      return "", [];
    }
    if IsSeparator(s[0]) {
      var tail;
      tail, gaps := TextSplits(s[1..]);
      lead := [s[0]] + tail;
      PrependedText(s[0], tail, Spread(Split(s[1..]), gaps));
    } else {
      var n := ScopeLength(s);
      var gap, rest := TextSplits(s[n..]);
      lead, gaps := "", [gap] + rest;
      assert Split(s) == [s[..n]] + Split(s[n..]) && gaps[1..] == rest && Split(s)[1..] == Split(s[n..]);
      assert s == s[..n] + s[n..];
      assert "" + Spread(Split(s), gaps) == Spread(Split(s), gaps);
      assert rest != [] ==> s[n..] != "" && s[n..][0] == s[n];
    }
  }

  lemma PrependedText(c: char, tail: string, rest: string)
    ensures [c] + (tail + rest) == [c] + tail + rest
  {
  }

  lemma SplitMeans(s: string)
    ensures SplitsInto(s, Split(s))
  {
    var lead, gaps := TextSplits(s);
  }

  // Entries that are no strings.
  function Others(n: nat): seq<Option<string>> {
    seq(n, _ => None)
  }

  // These strings with entries that are none after each.
  function Listed(texts: seq<string>, gaps: seq<nat>): seq<Option<string>>
    requires |texts| == |gaps|
  {
    if texts == [] then [] else [Some(texts[0])] + (Others(gaps[0]) + Listed(texts[1..], gaps[1..]))
  }

  // The list is these strings, in order, and entries that are none.
  ghost predicate Lists(items: seq<Option<string>>, texts: seq<string>) {
    exists lead: nat, gaps: seq<nat> :: |gaps| == |texts| && items == Others(lead) + Listed(texts, gaps)
  }

  lemma OneMoreOther(n: nat, rest: seq<Option<string>>)
    ensures [None] + (Others(n) + rest) == Others(n + 1) + rest
  {
  }

  lemma {:induction false} StringsListed(items: seq<Option<string>>) returns (lead: nat, gaps: seq<nat>)
    ensures |gaps| == |Strings(items)| && items == Others(lead) + Listed(Strings(items), gaps)
  {
    if items == [] {
      return 0, [];
    }
    var n, rest := StringsListed(items[1..]);
    var texts := Strings(items[1..]);
    assert items == [items[0]] + items[1..];
    if items[0].None? {
      assert [] + texts == texts;
      OneMoreOther(n, Listed(texts, rest));
      return n + 1, rest;
    }
    lead, gaps := 0, [n] + rest;
    var all := [items[0].value] + texts;
    assert all[1..] == texts && gaps[1..] == rest;
    assert Others(0) + Listed(all, gaps) == Listed(all, gaps);
  }

  // What the normalised scopes are to the field they come from: unknown exactly when the field is missing,
  // a nil list, or raw JSON that is neither text nor a list of strings.
  ghost predicate Given(extra: Extra, scopes: Option<seq<string>>) {
    match extra
    case Missing => scopes.None?
    case Text(text) => scopes.Some? && SplitsInto(text, scopes.value)
    case Texts(texts) => scopes == texts
    case Items(items) => scopes.Some? && Lists(items, scopes.value)
    case Raw(Some(text), _) => scopes.Some? && SplitsInto(text, scopes.value)
    case Raw(None, texts) => scopes == texts
  }

  lemma ExtractedIsGiven(extra: Extra)
    ensures Given(extra, Extracted(extra))
  {
    match extra
    case Text(text) => SplitMeans(text);
    case Items(items) => var lead, gaps := StringsListed(items);
    case Raw(Some(text), _) => SplitMeans(text);
    case _ =>
  }
}
