// Whole .env files (examples/nethttp/env.go): what the parser makes of the lines people write, stated over
// the text alone.

module EnvironmentFiles {
  import opened Wrappers
  import opened Text
  import opened Environment

  // ASCII white space within a line.
  predicate Gap(s: string) {
    Pad(s) && '\n' !in s
  }

  // A line as it is written. export holds the white space after "export ".
  datatype FileLine =
    | Blank(space: string)
    | Comment(lead: string, text: string)
    | Declared(lead: string, export_: Option<string>, key: string, left: string, right: string, value: string, trail: string)

  function Declaration(key: string, left: string, right: string, value: string): string {
    key + left + (['='] + (right + value))
  }

  function Exported(export_: Option<string>, text: string): string {
    match export_
    case Some(gap) => "export " + (gap + text)
    case None => text
  }

  function TextOf(line: FileLine): string {
    match line
    case Blank(space) => space
    case Comment(lead, text) => lead + (['#'] + text)
    case Declared(lead, export_, key, left, right, value, trail) =>
      lead + Exported(export_, Declaration(key, left, right, value)) + trail
  }

  // White space where it may stand, a valid key, and a trimmed value on one line. A key "export" that is
  // not exported may not be followed by a space: see UnexportedExport.
  ghost predicate Proper(line: FileLine) {
    match line
    case Blank(space) => Gap(space)
    case Comment(lead, text) => Gap(lead) && '\n' !in text
    case Declared(lead, export_, key, left, right, value, trail) =>
      && Gap(lead) && Gap(left) && Gap(right) && Gap(trail) && (export_.Some? ==> Gap(export_.value))
      && ValidKey(key) && '\n' !in value && Trimmed(value) && (value == "" ==> right == "")
      && (export_.None? ==> !(key == "export" && left != "" && left[0] == ' '))
  }

  // --- trimming a line ---

  lemma DropCRBehind(front: string, tail: string)
    requires front != "" && front[|front| - 1] != '\r' && Gap(tail)
    ensures Gap(DropCR(tail)) && DropCR(front + tail) == front + DropCR(tail)
  {
    if tail != "" {
      assert forall c :: c in tail[..|tail| - 1] ==> c in tail;
      assert (front + tail)[..|front + tail| - 1] == front + tail[..|tail| - 1];
    } else {
      assert front + tail == front;
    }
  }

  // An ASCII character in front does not complete a white space rune at the end.
  lemma TrimmedBehind(front: string, text: string)
    requires front != "" && front[|front| - 1] < '\U{80}' && text != "" && Trimmed(text)
    ensures SpaceBefore(front + text, 0, |front + text|) == 0
  {
    var (s, n) := (front + text, |front + text|);
    assert s[n - 1] == text[|text| - 1];
    assert |text| >= 2 ==> s[n - 2] == text[|text| - 2];
    assert |text| >= 3 ==> s[n - 3] == text[|text| - 3];
    assert s[|front| - 1] == front[|front| - 1];
  }

  lemma NoSpaceAtVisible(s: string)
    requires s != "" && ' ' < s[0] <= '~'
    ensures SpaceAt(s, 0, |s|) == 0
  {
  }

  lemma GapIsAscii(gap: string, c: char)
    requires Gap(gap) && c in gap
    ensures c <= ' ' && c != '='
  {
  }

  lemma KeyIsVisible(key: string, c: char)
    requires ValidKey(key) && c in key
    ensures ' ' < c <= '~' && c != '=' && c != '#' && c != '\n'
  {
    var i :| 0 <= i < |key| && key[i] == c;
  }

  lemma KeyIsTrimmedText(key: string)
    requires ValidKey(key)
    ensures Trimmed(key)
  {
    KeyIsVisible(key, key[0]);
    KeyIsVisible(key, key[|key| - 1]);
  }

  // What stands in front of the value.
  function Front(key: string, left: string, right: string): string {
    key + left + (['='] + right)
  }

  lemma FrontAndValue(key: string, left: string, right: string, value: string)
    ensures Declaration(key, left, right, value) == Front(key, left, right) + value
  {
    assert ['='] + (right + value) == ['='] + right + value;
  }

  lemma FrontEndsInAscii(key: string, left: string, right: string)
    requires ValidKey(key) && Gap(left) && Gap(right)
    ensures var front := Front(key, left, right);
            front != "" && ' ' < front[0] <= '~' && front[0] != '#' && front[|front| - 1] < '\U{80}'
            && (right == "" ==> front[|front| - 1] == '=')
  {
    var front := Front(key, left, right);
    KeyIsVisible(key, key[0]);
    assert front[0] == key[0];
    if right != "" {
      GapIsAscii(right, right[|right| - 1]);
      assert front[|front| - 1] == right[|right| - 1];
    }
  }

  lemma DeclarationIsTrimmed(key: string, left: string, right: string, value: string)
    requires ValidKey(key) && Gap(left) && Gap(right) && Trimmed(value) && (value == "" ==> right == "")
    ensures var text := Declaration(key, left, right, value);
            Trimmed(text) && text != "" && text[0] != '#' && text[|text| - 1] != '\r' && ' ' < text[0] <= '~'
  {
    var (text, front) := (Declaration(key, left, right, value), Front(key, left, right));
    FrontEndsInAscii(key, left, right);
    FrontAndValue(key, left, right, value);
    assert text[0] == front[0];
    NoSpaceAtVisible(text);
    if value == "" {
      assert text == front;
    } else {
      TrimmedBehind(front, value);
      assert text[|text| - 1] == value[|value| - 1];
      assert !Space1(value[|value| - 1]);
    }
  }

  lemma ExportedIsTrimmed(export_: Option<string>, text: string)
    requires (export_.Some? ==> Gap(export_.value)) && text != "" && Trimmed(text) && text[|text| - 1] != '\r'
    requires ' ' < text[0] <= '~' && text[0] != '#'
    ensures var line := Exported(export_, text);
            Trimmed(line) && line != "" && line[0] != '#' && line[|line| - 1] != '\r'
  {
    if export_.Some? {
      var (line, front) := (Exported(export_, text), "export " + export_.value);
      assert line == front + text;
      assert line[0] == 'e' && line[|line| - 1] == text[|text| - 1];
      if export_.value != "" {
        GapIsAscii(export_.value, export_.value[|export_.value| - 1]);
      }
      TrimmedBehind(front, text);
      NoSpaceAtVisible(line);
    }
  }

  // White space around a line does not matter.
  lemma TrimmedLine(lead: string, text: string, trail: string)
    requires Gap(lead) && Gap(trail) && Trimmed(text) && text != "" && text[|text| - 1] != '\r'
    ensures TrimSpace(DropCR(lead + text + trail)) == text
  {
    DropCRBehind(lead + text, trail);
    TrimPadded(lead, text, DropCR(trail));
  }

  // Nor does white space after "export ".
  lemma ExportIsTaken(export_: Option<string>, text: string)
    requires (export_.Some? ==> Gap(export_.value)) && Trimmed(text)
    requires export_.None? ==> !(EXPORT <= text)
    ensures WithoutExport(Exported(export_, text)) == text
  {
    if export_.Some? {
      var line := Exported(export_, text);
      assert line[|EXPORT|..] == export_.value + text;
      TrimInFront(export_.value, text);
    }
  }

  // A declaration starts with "export " only if its key is "export" and a space follows.
  lemma NoExportInDeclaration(key: string, left: string, rest: string)
    requires ValidKey(key) && Gap(left) && !(key == "export" && left != "" && left[0] == ' ')
    ensures !(EXPORT <= key + left + (['='] + rest))
  {
    var line := key + left + (['='] + rest);
    if EXPORT <= line {
      assert forall i :: 0 <= i < 7 ==> line[i] == EXPORT[i];
      ExportKey(key, left, line);
    }
  }

  lemma ExportKey(key: string, left: string, line: string)
    requires ValidKey(key) && Gap(left) && key + left < line && line[|key + left|] == '=' && key + left <= line
    requires forall i :: 0 <= i < 7 ==> i < |line| && line[i] == EXPORT[i]
    ensures key == "export" && left != "" && left[0] == ' '
  {
    assert forall i :: 0 <= i < |key| ==> line[i] == key[i];
    assert forall i :: 0 <= i < |left| ==> line[|key| + i] == left[i];
    if |key| > 6 {
      KeyIsVisible(key, key[6]);
      assert false;
    }
    if |key| < 6 {
      if left != "" {
        GapIsAscii(left, left[0]);
      }
      assert false;
    }
    assert key == EXPORT[..6];
  }

  lemma CutDeclaration(key: string, left: string, rest: string)
    requires ValidKey(key) && Gap(left)
    ensures var line := key + left + (['='] + rest);
            var cut := IndexOf(line, '=');
            cut == |key + left| && TrimSpace(line[..cut]) == key && line[cut + 1..] == rest
  {
    var before := key + left;
    forall i | 0 <= i < |before|
      ensures before[i] != '='
    {
      if i < |key| {
        KeyIsVisible(key, before[i]);
      } else {
        GapIsAscii(left, before[i]);
      }
    }
    IndexOfFirst(before, '=', rest);
    CutAt(before, '=', rest);
    KeyIsTrimmedText(key);
    TrimPadded("", key, left);
    assert "" + key + left == before;
  }

  // A declared line: the text after the equals sign without the white space around it, or without its
  // quotes. What is in double quotes, strconv.Unquote decides.
  lemma DeclaredLine(line: FileLine, unquote: string -> Option<string>)
    requires line.Declared? && Proper(line)
    ensures var (read, value) := (LineParser(unquote)(TextOf(line)), line.value);
            && (value == "" || (value[0] != '"' && value[0] != '\'') ==> read == Assignment(line.key, value))
            && (value != "" && value[0] == '"' && unquote(value).Some? ==> read == Assignment(line.key, unquote(value).value))
            && (value != "" && value[0] == '"' && unquote(value).None? ==> read == BadValue(line.key))
            && (value != "" && value[0] == '\'' && |value| >= 2 && value[|value| - 1] == '\'' ==>
                 read == Assignment(line.key, value[1..|value| - 1]))
            && (value != "" && value[0] == '\'' && !(|value| >= 2 && value[|value| - 1] == '\'') ==> read == BadValue(line.key))
  {
    DeclaredIsDeclared(line, unquote);
  }

  lemma LineIsDeclaration(line: FileLine, parse: string -> Line)
    requires line.Declared? && Proper(line)
    ensures ParseLine(DropCR(TextOf(line)), parse) == parse(Declaration(line.key, line.left, line.right, line.value))
  {
    var text := Declaration(line.key, line.left, line.right, line.value);
    DeclarationIsTrimmed(line.key, line.left, line.right, line.value);
    ExportedIsTrimmed(line.export_, text);
    TrimmedLine(line.lead, Exported(line.export_, text), line.trail);
    if line.export_.None? {
      NoExportInDeclaration(line.key, line.left, line.right + line.value);
    }
    ExportIsTaken(line.export_, text);
  }

  lemma DeclarationIsDeclared(key: string, left: string, right: string, value: string, unquote: string -> Option<string>)
    requires ValidKey(key) && Gap(left) && Gap(right) && Trimmed(value)
    ensures ParseDeclaration(Declaration(key, left, right, value), unquote) == Declare(key, value, unquote)
  {
    CutDeclaration(key, left, right + value);
    TrimInFront(right, value);
    DeclarationCut(Declaration(key, left, right, value), |key + left|, key, value, unquote);
  }

  lemma TrimInFront(gap: string, text: string)
    requires Gap(gap) && Trimmed(text)
    ensures TrimSpace(gap + text) == text
  {
    TrimPadded(gap, text, "");
    assert gap + text + "" == gap + text;
  }

  lemma DeclarationCut(line: string, cut: nat, key: string, value: string, unquote: string -> Option<string>)
    requires IndexOf(line, '=') == cut < |line|
    requires TrimSpace(line[..cut]) == key && TrimSpace(line[cut + 1..]) == value
    ensures ParseDeclaration(line, unquote) == Declare(key, value, unquote)
  {
    DeclaredAt(line, cut, key, value, unquote);
  }

  lemma DeclaredAt(line: string, cut: nat, key: string, value: string, unquote: string -> Option<string>)
    requires cut < |line| && TrimSpace(line[..cut]) == key && TrimSpace(line[cut + 1..]) == value
    ensures DeclareAt(line, cut, unquote) == Declare(key, value, unquote)
  {
  }

  lemma DeclaredIsDeclared(line: FileLine, unquote: string -> Option<string>)
    requires line.Declared? && Proper(line)
    ensures LineParser(unquote)(TextOf(line)) == Declare(line.key, line.value, unquote)
  {
    LineIsDeclaration(line, text => ParseDeclaration(text, unquote));
    DeclarationIsDeclared(line.key, line.left, line.right, line.value, unquote);
  }

  // TrimSpace does not go past a visible ASCII character.
  lemma {:induction false} LastKeepsVisible(s: string, i: nat, j: nat, p: nat)
    requires i <= p < j <= |s| && ' ' < s[p] <= '~'
    ensures Last(s, i, j) > p
    decreases j
  {
    if SpaceBefore(s, i, j) > 0 {
      LastKeepsVisible(s, i, j - SpaceBefore(s, i, j), p);
    }
  }

  lemma TrimToVisible(lead: string, c: char, rest: string)
    requires Gap(lead) && ' ' < c <= '~'
    ensures var t := TrimSpace(lead + ([c] + rest)); t != "" && t[0] == c
  {
    var s := lead + ([c] + rest);
    assert s[|lead|] == c;
    forall k | 0 <= k < |lead|
      ensures Space1(s[k])
    {
      assert s[k] == lead[k];
    }
    FirstAfterPad(s, 0, |lead|);
    LastKeepsVisible(s, |lead|, |s|, |lead|);
  }

  lemma DropCRAfter(lead: string, c: char, text: string) returns (rest: string)
    requires c != '\r'
    ensures DropCR(lead + ([c] + text)) == lead + ([c] + rest)
  {
    rest := DropCR(text);
    var line := lead + ([c] + text);
    if text != "" && text[|text| - 1] == '\r' {
      assert line[|line| - 1] == '\r' && line[..|line| - 1] == lead + ([c] + rest);
    } else {
      assert line[|line| - 1] == if text == "" then c else text[|text| - 1];
    }
  }

  // Blank lines and comments declare nothing.
  lemma OtherLine(line: FileLine, parse: string -> Line)
    requires !line.Declared? && Proper(line)
    ensures ParseLine(DropCR(TextOf(line)), parse) == Nothing
  {
    match line
    case Blank(space) => BlankLine(space);
    case Comment(lead, text) =>
      var rest := DropCRAfter(lead, '#', text);
      TrimToVisible(lead, '#', rest);
  }

  lemma BlankLine(space: string)
    requires Gap(space)
    ensures TrimSpace(DropCR(space)) == ""
  {
    if space != "" {
      assert forall c :: c in space[..|space| - 1] ==> c in space;
    }
    PaddingIsBlank(DropCR(space));
  }

  // --- whole files ---

  // What a line declares.
  function EntryOf(line: FileLine, unquote: string -> Option<string>): Option<Entry> {
    match line
    case Declared(_, _, key, _, _, value, _) =>
      if value != "" && value[0] == '"' then
        match unquote(value) case Some(text) => Some(Entry(key, text)) case None => None
      else if |value| >= 2 && value[0] == '\'' && value[|value| - 1] == '\'' then Some(Entry(key, value[1..|value| - 1]))
      else Some(Entry(key, value))
    case _ => None
  }

  // A value with quotes has them at both ends, as strconv.Unquote wants them if they are double.
  predicate Readable(line: FileLine, unquote: string -> Option<string>) {
    line.Declared? && line.value != "" ==>
      && (line.value[0] == '"' ==> unquote(line.value).Some?)
      && (line.value[0] == '\'' ==> |line.value| >= 2 && line.value[|line.value| - 1] == '\'')
  }

  function Meaning(entry: Option<Entry>): Line {
    match entry
    case Some(e) => Assignment(e.key, e.value)
    case None => Nothing
  }

  lemma DeclaredMeaning(read: Line, line: FileLine, unquote: string -> Option<string>)
    requires line.Declared? && Readable(line, unquote)
    requires read == Declare(line.key, line.value, unquote) && ValidKey(line.key)
    ensures read == Meaning(EntryOf(line, unquote))
  {
  }

  lemma LineMeans(line: FileLine, unquote: string -> Option<string>)
    requires Proper(line) && Readable(line, unquote)
    ensures LineParser(unquote)(TextOf(line)) == Meaning(EntryOf(line, unquote))
  {
    if line.Declared? {
      DeclaredIsDeclared(line, unquote);
      DeclaredMeaning(LineParser(unquote)(TextOf(line)), line, unquote);
    } else {
      OtherLine(line, text => ParseDeclaration(text, unquote));
    }
  }

  lemma ProperIsOneLine(line: FileLine)
    requires Proper(line)
    ensures '\n' !in TextOf(line)
  {
    if line.Declared? && '\n' in line.key {
      KeyIsVisible(line.key, '\n');
    }
  }

  function FileText(texts: seq<string>): string {
    if texts == [] then "" else texts[0] + (['\n'] + FileText(texts[1..]))
  }

  function Texts(lines: seq<FileLine>): seq<string> {
    seq(|lines|, i requires 0 <= i < |lines| => TextOf(lines[i]))
  }

  function Present(entries: seq<Option<Entry>>): seq<Entry> {
    if entries == [] then []
    else (match entries[0] case Some(e) => [e] case None => []) + Present(entries[1..])
  }

  function Declarations(lines: seq<FileLine>, unquote: string -> Option<string>): seq<Option<Entry>> {
    seq(|lines|, i requires 0 <= i < |lines| => EntryOf(lines[i], unquote))
  }

  function EntriesOf(lines: seq<FileLine>, unquote: string -> Option<string>): seq<Entry> {
    Present(Declarations(lines, unquote))
  }

  function Put(entry: Option<Entry>, values: map<string, string>): map<string, string> {
    match entry
    case Some(e) => values[e.key := e.value]
    case None => values
  }

  function PutAll(entries: seq<Option<Entry>>, values: map<string, string>): map<string, string>
    decreases |entries|
  {
    if entries == [] then values else PutAll(entries[1..], Put(entries[0], values))
  }

  lemma {:induction false} PutAllIsLastWins(entries: seq<Option<Entry>>, values: map<string, string>)
    ensures PutAll(entries, values) == LastWins(Present(entries), values)
    decreases |entries|
  {
    if entries != [] {
      PutAllIsLastWins(entries[1..], Put(entries[0], values));
      match entries[0]
      case Some(e) => LastWinsFirst(e, Present(entries[1..]), values);
      case None => assert [] + Present(entries[1..]) == Present(entries[1..]);
    }
  }

  lemma FirstMeaning(
      first: string, entry: Option<Entry>, after: string, line: nat, values: map<string, string>, parse: string -> Line)
    requires '\n' !in first && parse(first) == Meaning(entry)
    ensures Parse(first + (['\n'] + after), line, values, parse) ==
            if |first| > MAX_LINE then Err(LineTooLong) else Parse(after, line + 1, Put(entry, values), parse)
  {
    FirstLine(first, after, line, values, parse);
  }

  ghost predicate AllFit(texts: seq<string>) {
    forall i :: 0 <= i < |texts| ==> |texts[i]| < 64 * 1024
  }

  ghost predicate LinesRead(texts: seq<string>, entries: seq<Option<Entry>>, parse: string -> Line) {
    && |texts| == |entries|
    && forall i :: 0 <= i < |texts| ==> '\n' !in texts[i] && parse(texts[i]) == Meaning(entries[i])
  }

  // The first line of a text, and what is left.
  lemma FirstLine(first: string, after: string, line: nat, values: map<string, string>, parse: string -> Line)
    requires '\n' !in first
    ensures var text := first + (['\n'] + after);
            Parse(text, line, values, parse) ==
            if |first| > MAX_LINE then Err(LineTooLong)
            else match parse(first)
                 case Nothing => Parse(after, line + 1, values, parse)
                 case NoDeclaration => Err(InvalidDeclaration(line))
                 case BadValue(key) => Err(InvalidValue(line, key))
                 case Assignment(key, value) => Parse(after, line + 1, values[key := value], parse)
  {
    IndexOfFirst(first, '\n', after);
    CutAt(first, '\n', after);
  }

  lemma Regroup(first: string, rest: string, after: string)
    ensures first + (['\n'] + rest) + after == first + (['\n'] + (rest + after))
  {
  }

  lemma FirstText(
      texts: seq<string>, entry: Option<Entry>, after: string, line: nat, values: map<string, string>, parse: string -> Line)
    requires texts != [] && '\n' !in texts[0] && parse(texts[0]) == Meaning(entry)
    ensures Parse(FileText(texts) + after, line, values, parse) ==
            if |texts[0]| > MAX_LINE then Err(LineTooLong)
            else Parse(FileText(texts[1..]) + after, line + 1, Put(entry, values), parse)
  {
    Regroup(texts[0], FileText(texts[1..]), after);
    FirstMeaning(texts[0], entry, FileText(texts[1..]) + after, line, values, parse);
  }

  lemma {:induction false} ParseOfTexts(
      texts: seq<string>, entries: seq<Option<Entry>>, after: string, line: nat, values: map<string, string>,
      parse: string -> Line)
    requires LinesRead(texts, entries, parse)
    ensures Parse(FileText(texts) + after, line, values, parse) ==
            if AllFit(texts) then Parse(after, line + |texts|, PutAll(entries, values), parse) else Err(LineTooLong)
    decreases |texts|
  {
    if texts == [] {
      assert "" + after == after;
    } else {
      assert line + 1 + |texts[1..]| == line + |texts|;
      assert PutAll(entries, values) == PutAll(entries[1..], Put(entries[0], values));
      FitsFirst(texts);
      RestReads(texts, entries, parse);
      FirstText(texts, entries[0], after, line, values, parse);
      ParseOfTexts(texts[1..], entries[1..], after, line + 1, Put(entries[0], values), parse);
    }
  }

  lemma RestReads(texts: seq<string>, entries: seq<Option<Entry>>, parse: string -> Line)
    requires LinesRead(texts, entries, parse) && texts != []
    ensures LinesRead(texts[1..], entries[1..], parse) && '\n' !in texts[0] && parse(texts[0]) == Meaning(entries[0])
  {
  }

  lemma FitsFirst(texts: seq<string>)
    requires texts != []
    ensures AllFit(texts) <==> |texts[0]| < 64 * 1024 && AllFit(texts[1..])
  {
    assert texts == [texts[0]] + texts[1..];
  }

  lemma LastWinsFirst(e: Entry, entries: seq<Entry>, values: map<string, string>)
    ensures LastWins([e] + entries, values) == LastWins(entries, values[e.key := e.value])
  {
    assert ([e] + entries)[1..] == entries;
  }

  ghost predicate AllProper(lines: seq<FileLine>, unquote: string -> Option<string>) {
    forall i :: 0 <= i < |lines| ==> Proper(lines[i]) && Readable(lines[i], unquote)
  }

  lemma ParseOfLinesAnd(lines: seq<FileLine>, after: string, unquote: string -> Option<string>)
    requires AllProper(lines, unquote)
    ensures Parse(FileText(Texts(lines)) + after, 1, map[], LineParser(unquote)) ==
            if AllFit(Texts(lines)) then
              Parse(after, 1 + |lines|, LastWins(EntriesOf(lines, unquote), map[]), LineParser(unquote))
            else Err(LineTooLong)
  {
    ProperLinesRead(lines, unquote);
    ParseOfTexts(Texts(lines), Declarations(lines, unquote), after, 1, map[], LineParser(unquote));
    PutAllIsLastWins(Declarations(lines, unquote), map[]);
  }

  lemma ProperLineReads(line: FileLine, unquote: string -> Option<string>)
    requires Proper(line) && Readable(line, unquote)
    ensures '\n' !in TextOf(line) && LineParser(unquote)(TextOf(line)) == Meaning(EntryOf(line, unquote))
  {
    ProperIsOneLine(line);
    LineMeans(line, unquote);
  }

  lemma ProperLinesRead(lines: seq<FileLine>, unquote: string -> Option<string>)
    requires AllProper(lines, unquote)
    ensures LinesRead(Texts(lines), Declarations(lines, unquote), LineParser(unquote))
  {
    var (texts, entries, parse) := (Texts(lines), Declarations(lines, unquote), LineParser(unquote));
    forall i | 0 <= i < |texts|
      ensures '\n' !in texts[i] && parse(texts[i]) == Meaning(entries[i])
    {
      ProperLineReads(lines[i], unquote);
    }
  }

  // A file of blank lines, comments and declarations parses to the last value of each key declared, and
  // fails only for a line longer than the scanner takes. LastWinsMeans says what the last value is.
  lemma ParseOfFile(lines: seq<FileLine>, unquote: string -> Option<string>)
    requires AllProper(lines, unquote)
    ensures Parse(FileText(Texts(lines)), 1, map[], LineParser(unquote)) ==
            if AllFit(Texts(lines)) then Ok(LastWins(EntriesOf(lines, unquote), map[])) else Err(LineTooLong)
  {
    ParseOfLinesAnd(lines, "", unquote);
    assert FileText(Texts(lines)) + "" == FileText(Texts(lines));
  }

  // A missing newline at the end of the file makes no difference.
  lemma FinalNewline(last: string, line: nat, values: map<string, string>, parse: string -> Line)
    requires last != "" && '\n' !in last
    ensures Parse(last, line, values, parse) == Parse(last + (['\n'] + ""), line, values, parse)
  {
    FirstLine(last, "", line, values, parse);
    assert last[..|last|] == last;
    NoNewline(last);
  }

  lemma NoNewline(s: string)
    requires '\n' !in s
    ensures IndexOf(s, '\n') == |s|
  {
    forall i | 0 <= i < |s|
      ensures s[i] != '\n'
    {
      assert s[i] in s;
    }
  }

  // --- lines that fail ---

  // After lines that are in order, a line that is no declaration fails the file under its own number.
  lemma FailsAtLine(lines: seq<FileLine>, bad: string, after: string, unquote: string -> Option<string>)
    requires AllProper(lines, unquote) && AllFit(Texts(lines)) && '\n' !in bad && |bad| < 64 * 1024
    requires LineParser(unquote)(bad) == NoDeclaration
    ensures Parse(FileText(Texts(lines)) + (bad + (['\n'] + after)), 1, map[], LineParser(unquote)) ==
            Err(InvalidDeclaration(|lines| + 1))
  {
    ParseOfLinesAnd(lines, bad + (['\n'] + after), unquote);
    FirstLine(bad, after, 1 + |lines|, LastWins(EntriesOf(lines, unquote), map[]), LineParser(unquote));
  }

  lemma TrimKeeps(s: string, c: char)
    requires c !in s
    ensures c !in TrimSpace(s)
  {
  }

  lemma WithoutEquals(line: string, unquote: string -> Option<string>)
    requires '=' !in line
    ensures ParseDeclaration(line, unquote) == NoDeclaration
  {
    forall i | 0 <= i < |line|
      ensures line[i] != '='
    {
      assert line[i] in line;
    }
  }

  lemma ExportKeeps(line: string, c: char)
    requires c !in line
    ensures c !in WithoutExport(line)
  {
    if EXPORT <= line {
      TrimKeeps(line[|EXPORT|..], c);
    }
  }

  // A line with something on it that is no comment and has no equals sign.
  lemma NoEqualsSign(bad: string, unquote: string -> Option<string>)
    requires '=' !in bad && TrimSpace(DropCR(bad)) != "" && TrimSpace(DropCR(bad))[0] != '#'
    ensures LineParser(unquote)(bad) == NoDeclaration
  {
    var line := DropCR(bad);
    assert forall c :: c in line ==> c in bad;
    TrimKeeps(line, '=');
    ExportKeeps(TrimSpace(line), '=');
    WithoutEquals(WithoutExport(TrimSpace(line)), unquote);
  }

  // An equals sign ends the white space in front of it.
  lemma {:induction false} FirstBeforeVisible(head: string, c: char, rest: string, i: nat)
    requires i <= |head| && ' ' < c <= '~'
    ensures First(head + ([c] + rest), i) == First(head, i)
    decreases |head| - i
  {
    SpaceBeforeVisible(head, c, rest, i);
    if SpaceAt(head, i, |head|) > 0 {
      FirstBeforeVisible(head, c, rest, i + SpaceAt(head, i, |head|));
    }
  }

  lemma SpaceBeforeVisible(head: string, c: char, rest: string, i: nat)
    requires i <= |head| && ' ' < c <= '~'
    ensures var s := head + ([c] + rest); SpaceAt(s, i, |s|) == SpaceAt(head, i, |head|)
  {
    var s := head + ([c] + rest);
    assert s[|head|] == c;
    assert forall k :: 0 <= k < |head| ==> s[k] == head[k];
  }

  // Trimming a text with an equals sign trims the front of what precedes the sign.
  lemma TrimAroundVisible(head: string, c: char, rest: string) returns (after: string)
    requires ' ' < c <= '~'
    ensures TrimSpace(head + ([c] + rest)) == head[First(head, 0)..] + ([c] + after)
  {
    var s := head + ([c] + rest);
    FirstBeforeVisible(head, c, rest, 0);
    var i := First(s, 0);
    assert s[|head|] == c;
    LastKeepsVisible(s, i, |s|, |head|);
    var j := Last(s, i, |s|);
    after := s[|head| + 1..j];
    WindowAround(head, c, rest, i, j);
  }

  lemma WindowAround(head: string, c: char, rest: string, i: nat, j: nat)
    requires i <= |head| < j <= |head| + 1 + |rest|
    ensures var s := head + ([c] + rest); s[i..j] == head[i..] + ([c] + s[|head| + 1..j])
  {
  }

  lemma SpaceBeforeInSuffix(s: string, i: nat, j: nat)
    requires i <= j <= |s|
    ensures SpaceBefore(s[i..], 0, j - i) == SpaceBefore(s, i, j)
  {
    SpaceBeforeWindow(s, i, j);
    SpaceBeforeWindow(s[i..], 0, j - i);
    assert s[i..][0..j - i] == s[i..j];
  }

  lemma {:induction false} LastOfSuffix(s: string, i: nat, j: nat)
    requires i <= j <= |s|
    ensures Last(s[i..], 0, j - i) == Last(s, i, j) - i
    decreases j
  {
    SpaceBeforeInSuffix(s, i, j);
    if SpaceBefore(s, i, j) > 0 {
      LastOfSuffix(s, i, j - SpaceBefore(s, i, j));
    }
  }

  lemma FrontIsTrimmed(s: string, i: nat)
    requires i <= |s| && SpaceAt(s, i, |s|) == 0
    ensures First(s[i..], 0) == 0
  {
    SpaceAtWindow(s, i, |s|);
    assert s[i..|s|] == s[i..];
  }

  lemma SuffixSlice(s: string, i: nat, j: nat)
    requires i <= j <= |s|
    ensures s[i..][0..j - i] == s[i..j]
  {
  }

  lemma TrimTwice(s: string)
    ensures First(s[First(s, 0)..], 0) == 0 && TrimSpace(s[First(s, 0)..]) == TrimSpace(s)
  {
    var i := First(s, 0);
    FrontIsTrimmed(s, i);
    LastOfSuffix(s, i, |s|);
    SuffixSlice(s, i, Last(s, i, |s|));
  }

  lemma BadKeyCut(text: string, rest: string, unquote: string -> Option<string>)
    requires '=' !in text && !ValidKey(TrimSpace(text))
    ensures ParseDeclaration(text + (['='] + rest), unquote) == NoDeclaration
  {
    IndexOfFirst(text, '=', rest);
    CutAt(text, '=', rest);
  }

  lemma SuffixKeeps(s: string, i: nat, c: char)
    requires i <= |s| && c !in s
    ensures c !in s[i..]
  {
  }

  // What the trimmed front of a line looks like in the trimmed line.
  lemma FrontStarts(text: string, prefix: string)
    requires First(text, 0) == 0 && prefix <= TrimSpace(text)
    ensures prefix <= text
  {
  }

  // The text before the first equals sign is no valid key: the line is no declaration. A name in
  // front of which stands "export " is judged by InvalidExportedKey.
  lemma InvalidKey(head: string, rest: string, unquote: string -> Option<string>)
    requires '=' !in head
    requires var key := TrimSpace(head); !ValidKey(key) && !(['#'] <= key) && !(EXPORT <= key)
    ensures LineParser(unquote)(head + (['='] + rest)) == NoDeclaration
  {
    TrimTwice(head);
    SuffixKeeps(head, First(head, 0), '=');
    var after := LineAround(head, rest, unquote);
    FrontOfLine(head[First(head, 0)..], after);
    BadKeyCut(head[First(head, 0)..], after, unquote);
  }

  lemma LineAround(head: string, rest: string, unquote: string -> Option<string>) returns (after: string)
    ensures var line := head[First(head, 0)..] + (['='] + after);
            line[0] != '#' ==>
              LineParser(unquote)(head + (['='] + rest)) == ParseDeclaration(WithoutExport(line), unquote)
  {
    var kept := DropCRAfter(head, '=', rest);
    after := TrimAroundVisible(head, '=', kept);
    var line := head[First(head, 0)..] + (['='] + after);
    if line[0] != '#' {
      LineGoesOn(head + (['='] + rest), line, text => ParseDeclaration(text, unquote));
    }
  }

  lemma LineGoesOn(raw: string, line: string, parse: string -> Line)
    requires TrimSpace(DropCR(raw)) == line && line != "" && line[0] != '#'
    ensures ParseLine(DropCR(raw), parse) == parse(WithoutExport(line))
  {
  }

  lemma FrontOfLine(text: string, after: string)
    requires First(text, 0) == 0 && '=' !in text
    requires var key := TrimSpace(text); !ValidKey(key) && !(['#'] <= key) && !(EXPORT <= key)
    ensures var line := text + (['='] + after); line[0] != '#' && !(EXPORT <= line)
  {
    var line := text + (['='] + after);
    if text != "" {
      BlankMeansWhite(text);
      assert line[0] == text[0] == TrimSpace(text)[0];
    }
    if EXPORT <= line {
      ExportInFront(text, after);
    }
  }

  // "export " in front of an equals sign ends in the space that TrimSpace may take away.
  lemma ExportInFront(text: string, after: string)
    requires First(text, 0) == 0 && EXPORT <= text + (['='] + after)
    ensures EXPORT <= TrimSpace(text) || TrimSpace(text) == "export"
  {
    var line := text + (['='] + after);
    assert line[|text|] == '=';
    assert forall k :: 0 <= k < 7 ==> line[k] == EXPORT[k];
    assert |text| >= 7;
    assert forall k :: 0 <= k < 7 ==> text[k] == EXPORT[k];
    LastKeepsVisible(text, 0, |text|, 5);
    var n := Last(text, 0, |text|);
    if n == 6 {
      assert text[..6] == "export";
    }
  }

  lemma FirstBeforeExport(lead: string, tail: string)
    requires Gap(lead)
    ensures var head := lead + (EXPORT + tail); First(head, 0) == |lead| && head[|lead|..] == EXPORT + tail
  {
    var head := lead + (EXPORT + tail);
    assert head[|lead|] == 'e';
    forall k | 0 <= k < |lead|
      ensures Space1(head[k])
    {
      assert head[k] == lead[k];
    }
    FirstAfterPad(head, 0, |lead|);
  }

  lemma ExportedRest(tail: string, after: string)
    ensures var line := EXPORT + tail + (['='] + after);
            EXPORT <= line && line[|EXPORT|..] == tail + (['='] + after)
  {
  }

  // The same for the text between "export " and the first equals sign.
  lemma InvalidExportedKey(lead: string, tail: string, rest: string, unquote: string -> Option<string>)
    requires Gap(lead) && '=' !in tail && !ValidKey(TrimSpace(tail))
    ensures LineParser(unquote)(lead + (EXPORT + tail) + (['='] + rest)) == NoDeclaration
  {
    var head := lead + (EXPORT + tail);
    FirstBeforeExport(lead, tail);
    var after := LineAround(head, rest, unquote);
    ExportedRest(tail, after);
    InvalidRest(tail, after, unquote);
  }

  lemma InvalidRest(tail: string, rest: string, unquote: string -> Option<string>)
    requires '=' !in tail && !ValidKey(TrimSpace(tail))
    ensures ParseDeclaration(TrimSpace(tail + (['='] + rest)), unquote) == NoDeclaration
  {
    var after := TrimAroundVisible(tail, '=', rest);
    TrimTwice(tail);
    SuffixKeeps(tail, First(tail, 0), '=');
    BadKeyCut(tail[First(tail, 0)..], after, unquote);
  }

  // A variable named "export" may be declared, as DeclaredLine says, but not with a space before the
  // equals sign: the name is then taken for the shell's keyword.
  lemma UnexportedExport(lead: string, left: string, rest: string, unquote: string -> Option<string>)
    requires Gap(lead) && Gap(left)
    ensures LineParser(unquote)(lead + (EXPORT + left) + (['='] + rest)) == NoDeclaration
  {
    PaddingIsBlank(left);
    forall c | c in left
      ensures c != '='
    {
      GapIsAscii(left, c);
    }
    InvalidExportedKey(lead, left, rest, unquote);
  }

  // After lines that are in order, a declaration with a value in broken quotes fails the file under its
  // own number and key.
  lemma FailsAtValue(lines: seq<FileLine>, bad: FileLine, after: string, unquote: string -> Option<string>)
    requires AllProper(lines, unquote) && AllFit(Texts(lines)) && Proper(bad) && |TextOf(bad)| < 64 * 1024
    requires !Readable(bad, unquote)
    ensures Parse(FileText(Texts(lines)) + (TextOf(bad) + (['\n'] + after)), 1, map[], LineParser(unquote)) ==
            Err(InvalidValue(|lines| + 1, bad.key))
  {
    ParseOfLinesAnd(lines, TextOf(bad) + (['\n'] + after), unquote);
    BadValueLine(bad, unquote);
    FirstLine(TextOf(bad), after, 1 + |lines|, LastWins(EntriesOf(lines, unquote), map[]), LineParser(unquote));
  }

  lemma BadValueLine(line: FileLine, unquote: string -> Option<string>)
    requires Proper(line) && !Readable(line, unquote)
    ensures '\n' !in TextOf(line) && LineParser(unquote)(TextOf(line)) == BadValue(line.key)
  {
    ProperIsOneLine(line);
    DeclaredIsDeclared(line, unquote);
    BadMeaning(LineParser(unquote)(TextOf(line)), line, unquote);
  }

  lemma BadMeaning(read: Line, line: FileLine, unquote: string -> Option<string>)
    requires line.Declared? && !Readable(line, unquote)
    requires read == Declare(line.key, line.value, unquote) && ValidKey(line.key)
    ensures read == BadValue(line.key)
  {
  }
}
