// Strings as Go holds them: a string is the sequence of its bytes, and a byte is written as the
// character with that code. White space is therefore recognised by its UTF-8 encoding, as
// strings.TrimSpace does.

module Text {
  // A Go string really holds bytes.
  ghost predicate IsBytes(s: string) {
    forall i :: 0 <= i < |s| ==> s[i] as int < 256
  }

  // The UTF-8 encodings of the runes with the White_Space property.
  predicate Space1(c: char) {
    '\t' <= c <= '\r' || c == ' '
  }

  predicate Space2(c: char, d: char) {
    c == '\U{C2}' && (d == '\U{85}' || d == '\U{A0}')
  }

  predicate Space3(c: char, d: char, e: char) {
    || (c == '\U{E1}' && d == '\U{9A}' && e == '\U{80}')
    || (c == '\U{E2}' && d == '\U{80}' && ('\U{80}' <= e <= '\U{8A}' || e == '\U{A8}' || e == '\U{A9}' || e == '\U{AF}'))
    || (c == '\U{E2}' && d == '\U{81}' && e == '\U{9F}')
    || (c == '\U{E3}' && d == '\U{80}' && e == '\U{80}')
  }

  // In code points: the ASCII ones, next line, no-break space, and the space separators and line and
  // paragraph separators beyond.
  lemma SpacesInUnicode(c: char, d: char, e: char)
    requires '\U{80}' <= d <= '\U{BF}' && '\U{80}' <= e <= '\U{BF}'
    ensures Space1(c) <==> 9 <= c as int <= 13 || c as int == 32
    ensures '\U{C2}' <= c <= '\U{DF}' ==>
              (Space2(c, d) <==> (c as int - 0xC0) * 64 + (d as int - 0x80) in {0x85, 0xA0})
    ensures '\U{E0}' <= c <= '\U{EF}' ==>
              var point := (c as int - 0xE0) * 4096 + (d as int - 0x80) * 64 + (e as int - 0x80);
              Space3(c, d, e) <==>
              0x2000 <= point <= 0x200A || point in {0x1680, 0x2028, 0x2029, 0x202F, 0x205F, 0x3000}
  {
  }

  // The length of the white space rune that s[i..j] starts with, 0 when it starts with none.
  function SpaceAt(s: string, i: nat, j: nat): (k: nat)
    requires i <= j <= |s|
    ensures i + k <= j
  {
    if i + 1 <= j && Space1(s[i]) then 1
    else if i + 2 <= j && Space2(s[i], s[i + 1]) then 2
    else if i + 3 <= j && Space3(s[i], s[i + 1], s[i + 2]) then 3
    else 0
  }

  // The length of the white space rune that s[i..j] ends with, 0 when it ends with none.
  function SpaceBefore(s: string, i: nat, j: nat): (k: nat)
    requires i <= j <= |s|
    ensures i + k <= j
  {
    if i + 1 <= j && Space1(s[j - 1]) then 1
    else if i + 2 <= j && Space2(s[j - 2], s[j - 1]) then 2
    else if i + 3 <= j && Space3(s[j - 3], s[j - 2], s[j - 1]) then 3
    else 0
  }

  // The position of the first rune from i on that is not white space.
  function First(s: string, i: nat): (r: nat)
    requires i <= |s|
    ensures i <= r <= |s| && SpaceAt(s, r, |s|) == 0
    decreases |s| - i
  {
    if SpaceAt(s, i, |s|) == 0 then i else First(s, i + SpaceAt(s, i, |s|))
  }

  // The end of the last rune of s[i..j] that is not white space.
  function Last(s: string, i: nat, j: nat): (r: nat)
    requires i <= j <= |s|
    ensures i <= r <= j && SpaceBefore(s, i, r) == 0
    decreases j
  {
    if SpaceBefore(s, i, j) == 0 then j else Last(s, i, j - SpaceBefore(s, i, j))
  }

  function TrimSpace(s: string): string {
    s[First(s, 0)..Last(s, First(s, 0), |s|)]
  }

  // No white space at either end.
  predicate Trimmed(s: string) {
    SpaceAt(s, 0, |s|) == 0 && SpaceBefore(s, 0, |s|) == 0
  }

  lemma TrimmedIsKept(s: string)
    requires Trimmed(s)
    ensures TrimSpace(s) == s
  {}

  // White space is recognised by the characters of the window alone.
  lemma SpaceAtWindow(s: string, i: nat, j: nat)
    requires i <= j <= |s|
    ensures SpaceAt(s[i..j], 0, j - i) == SpaceAt(s, i, j)
  {
    var t := s[i..j];
    assert i + 1 <= j ==> t[0] == s[i];
    assert i + 2 <= j ==> t[1] == s[i + 1];
    assert i + 3 <= j ==> t[2] == s[i + 2];
  }

  lemma SpaceBeforeWindow(s: string, i: nat, j: nat)
    requires i <= j <= |s|
    ensures SpaceBefore(s[i..j], 0, j - i) == SpaceBefore(s, i, j)
  {
    var (t, n) := (s[i..j], j - i);
    assert i + 1 <= j ==> t[n - 1] == s[j - 1];
    assert i + 2 <= j ==> t[n - 2] == s[j - 2];
    assert i + 3 <= j ==> t[n - 3] == s[j - 3];
  }

  lemma NoSpaceInShorter(s: string, i: nat, j: nat, k: nat)
    requires i <= j <= k <= |s| && SpaceAt(s, i, k) == 0
    ensures SpaceAt(s, i, j) == 0
  {
  }

  // What TrimSpace returns carries no white space at either end, and trimming it again changes
  // nothing.
  lemma TrimSpaceIsTrimmed(s: string)
    ensures Trimmed(TrimSpace(s))
    ensures TrimSpace(TrimSpace(s)) == TrimSpace(s)
  {
    var i := First(s, 0);
    var j := Last(s, i, |s|);
    NoSpaceInShorter(s, i, j, |s|);
    SpaceAtWindow(s, i, j);
    SpaceBeforeWindow(s, i, j);
    TrimmedIsKept(s[i..j]);
  }

  // A string that starts and ends with a visible ASCII character is left alone by TrimSpace.
  lemma VisibleEndsAreTrimmed(s: string)
    requires s != "" && ' ' < s[0] <= '~' && ' ' < s[|s| - 1] <= '~'
    ensures TrimSpace(s) == s
  {
    TrimmedIsKept(s);
  }

  // --- what TrimSpace takes away ---

  // White space runes and nothing else.
  predicate White(s: string)
    decreases |s|
  {
    s == "" || (SpaceAt(s, 0, |s|) > 0 && White(s[SpaceAt(s, 0, |s|)..]))
  }

  lemma SpaceAtInPart(s: string, i: nat, j: nat, k: nat)
    requires i <= j <= k <= |s| && 0 < SpaceAt(s, i, k) <= j - i
    ensures SpaceAt(s[i..j], 0, j - i) == SpaceAt(s, i, k)
  {
    SpaceAtWindow(s, i, j);
  }

  lemma SliceConcat(s: string, i: nat, j: nat, k: nat)
    requires i <= j <= k <= |s|
    ensures s[i..j] + s[j..k] == s[i..k]
  {
  }

  lemma ThreeParts(s: string, i: nat, j: nat)
    requires i <= j <= |s|
    ensures s[..i] + s[i..j] + s[j..] == s
  {
  }

  // A white space rune at the start of a is one at the start of a + b.
  lemma SpaceOfConcat(a: string, b: string)
    requires SpaceAt(a, 0, |a|) > 0
    ensures SpaceAt(a + b, 0, |a + b|) == SpaceAt(a, 0, |a|)
  {
    assert (a + b)[..|a|] == a;
    SpaceAtWindow(a + b, 0, |a|);
    SpaceAtLonger(a + b, |a|);
  }

  lemma DropOfConcat(a: string, b: string, n: nat)
    requires n <= |a|
    ensures (a + b)[n..] == a[n..] + b
  {
  }

  lemma {:induction false} WhiteConcat(a: string, b: string)
    requires White(a) && White(b)
    ensures White(a + b)
    decreases |a|
  {
    if a == "" {
      assert a + b == b;
    } else {
      var n := SpaceAt(a, 0, |a|);
      WhiteConcat(a[n..], b);
      SpaceOfConcat(a, b);
      DropOfConcat(a, b, n);
    }
  }

  lemma SpaceAtLonger(s: string, j: nat)
    requires j <= |s| && SpaceAt(s, 0, j) > 0
    ensures SpaceAt(s, 0, |s|) == SpaceAt(s, 0, j)
  {
  }

  lemma WhiteGrows(s: string, i: nat, r: nat)
    requires i <= r <= |s| && SpaceAt(s, i, |s|) > 0
    requires i + SpaceAt(s, i, |s|) <= r && White(s[i + SpaceAt(s, i, |s|)..r])
    ensures White(s[i..r])
  {
    SpaceAtInPart(s, i, r, |s|);
    assert s[i..r][SpaceAt(s, i, |s|)..] == s[i + SpaceAt(s, i, |s|)..r];
  }

  lemma {:induction false} FirstSkipsWhite(s: string, i: nat)
    requires i <= |s|
    ensures White(s[i..First(s, i)])
    decreases |s| - i
  {
    if SpaceAt(s, i, |s|) > 0 {
      FirstSkipsWhite(s, i + SpaceAt(s, i, |s|));
      WhiteGrows(s, i, First(s, i));
    }
  }

  lemma SpaceBeforeIsSpaceAt(s: string, i: nat, j: nat)
    requires i <= j <= |s|
    ensures SpaceAt(s, j - SpaceBefore(s, i, j), j) == SpaceBefore(s, i, j)
  {
  }

  lemma OneSpaceIsWhite(t: string)
    requires SpaceAt(t, 0, |t|) == |t|
    ensures White(t)
  {
    assert t[|t|..] == "";
  }

  lemma SpaceBeforeIsWhite(s: string, i: nat, j: nat)
    requires i <= j <= |s|
    ensures White(s[j - SpaceBefore(s, i, j)..j])
  {
    var n := SpaceBefore(s, i, j);
    SpaceBeforeIsSpaceAt(s, i, j);
    SpaceAtWindow(s, j - n, j);
    OneSpaceIsWhite(s[j - n..j]);
  }

  lemma WhiteWindows(s: string, r: nat, m: nat, j: nat)
    requires r <= m <= j <= |s| && White(s[r..m]) && White(s[m..j])
    ensures White(s[r..j])
  {
    WhiteConcat(s[r..m], s[m..j]);
    SliceConcat(s, r, m, j);
  }

  lemma LastGoesOn(s: string, i: nat, j: nat)
    requires i <= j <= |s| && SpaceBefore(s, i, j) > 0
    ensures Last(s, i, j) == Last(s, i, j - SpaceBefore(s, i, j))
  {
  }

  lemma LastStops(s: string, i: nat, j: nat)
    requires i <= j <= |s| && SpaceBefore(s, i, j) == 0
    ensures White(s[Last(s, i, j)..j])
  {
    assert s[j..j] == "";
  }

  lemma {:induction false} LastSkipsWhite(s: string, i: nat, j: nat)
    requires i <= j <= |s|
    ensures White(s[Last(s, i, j)..j])
    decreases j
  {
    var n := SpaceBefore(s, i, j);
    if n == 0 {
      LastStops(s, i, j);
    } else {
      LastGoesOn(s, i, j);
      LastSkipsWhite(s, i, j - n);
      SpaceBeforeIsWhite(s, i, j);
      WhiteWindows(s, Last(s, i, j - n), j - n, j);
    }
  }

  // TrimSpace takes white space from both ends, and nothing else.
  lemma TrimSpaceTakesWhite(s: string) returns (lead: string, trail: string)
    ensures s == lead + TrimSpace(s) + trail && White(lead) && White(trail)
  {
    var i := First(s, 0);
    var j := Last(s, i, |s|);
    lead, trail := s[..i], s[j..];
    FirstSkipsWhite(s, 0);
    assert s[0..i] == lead;
    LastSkipsWhite(s, i, |s|);
    assert s[j..|s|] == trail;
    ThreeParts(s, i, j);
  }

  lemma WhiteStarts(s: string, i: nat)
    requires i < |s| && White(s[i..])
    ensures SpaceAt(s, i, |s|) > 0 && White(s[i + SpaceAt(s, i, |s|)..])
  {
    var t := s[i..];
    SpaceAtWindow(s, i, |s|);
    assert s[i..|s|] == t;
    assert t[SpaceAt(t, 0, |t|)..] == s[i + SpaceAt(t, 0, |t|)..];
  }

  lemma {:induction false} FirstOfWhite(s: string, i: nat)
    requires i <= |s| && White(s[i..])
    ensures First(s, i) == |s|
    decreases |s| - i
  {
    if i < |s| {
      WhiteStarts(s, i);
      FirstOfWhite(s, i + SpaceAt(s, i, |s|));
    }
  }

  lemma WhiteIsBlank(s: string)
    requires White(s)
    ensures TrimSpace(s) == ""
  {
    assert s[0..] == s;
    FirstOfWhite(s, 0);
  }

  lemma BlankIsWhite(s: string)
    requires TrimSpace(s) == ""
    ensures White(s)
  {
    var lead, trail := TrimSpaceTakesWhite(s);
    assert s == lead + trail;
    WhiteConcat(lead, trail);
  }

  lemma BlankMeansWhite(s: string)
    ensures TrimSpace(s) == "" <==> White(s)
  {
    if White(s) {
      WhiteIsBlank(s);
    } else if TrimSpace(s) == "" {
      BlankIsWhite(s);
    }
  }

  // --- ASCII white space around a trimmed text ---

  predicate Pad(s: string) {
    forall c :: c in s ==> Space1(c)
  }

  lemma {:induction false} FirstAfterPad(s: string, i: nat, j: nat)
    requires i <= j <= |s| && (forall k :: i <= k < j ==> Space1(s[k])) && SpaceAt(s, j, |s|) == 0
    ensures First(s, i) == j
    decreases j - i
  {
    if i < j {
      FirstAfterPad(s, i + 1, j);
    }
  }

  lemma {:induction false} LastBeforePad(s: string, i: nat, j: nat, n: nat)
    requires i <= j <= n <= |s| && (forall k :: j <= k < n ==> Space1(s[k])) && SpaceBefore(s, i, j) == 0
    ensures Last(s, i, n) == j
    decreases n - j
  {
    if j < n {
      LastBeforePad(s, i, j, n - 1);
    }
  }

  // ASCII characters after a window do not complete a white space rune that starts in it.
  lemma NoSpaceInLonger(s: string, i: nat, j: nat)
    requires i < j <= |s| && SpaceAt(s, i, j) == 0 && forall k :: j <= k < |s| ==> Space1(s[k])
    ensures SpaceAt(s, i, |s|) == 0
  {
  }

  // Padding is all TrimSpace removes from a padded text that is trimmed itself.
  lemma TrimPadded(lead: string, text: string, trail: string)
    requires Pad(lead) && Pad(trail) && Trimmed(text)
    ensures TrimSpace(lead + text + trail) == text
  {
    var s := lead + text + trail;
    var (i, j) := (|lead|, |lead| + |text|);
    assert s[i..j] == text;
    forall k | 0 <= k < i
      ensures Space1(s[k])
    {
      assert s[k] == lead[k];
    }
    forall k | j <= k < |s|
      ensures Space1(s[k])
    {
      assert s[k] == trail[k - j];
    }
    if text == "" {
      PaddingIsBlank(s);
    } else {
      SpaceAtWindow(s, i, j);
      SpaceBeforeWindow(s, i, j);
      NoSpaceInLonger(s, i, j);
      FirstAfterPad(s, 0, i);
      LastBeforePad(s, i, j, |s|);
    }
  }

  lemma PaddingIsBlank(s: string)
    requires forall k :: 0 <= k < |s| ==> Space1(s[k])
    ensures TrimSpace(s) == ""
  {
    FirstAfterPad(s, 0, |s|);
  }
}
