// The .env parser of the example application (examples/nethttp/env.go).

module Environment {
  import opened Wrappers
  import opened Text

  // bufio.Scanner gives up on a line longer than this.
  const MAX_LINE: nat := 65535

  function IndexOf(s: string, c: char): (n: nat)
    ensures n <= |s| && c !in s[..n] && (n < |s| ==> s[n] == c)
  {
    if s == "" || s[0] == c then 0 else 1 + IndexOf(s[1..], c)
  }

  function DropCR(line: string): string {
    if line != "" && line[|line| - 1] == '\r' then line[..|line| - 1] else line
  }

  predicate ValidKeyStart(c: char) {
    c == '_' || 'A' <= c <= 'Z' || 'a' <= c <= 'z'
  }

  predicate ValidKeyCharacter(c: char) {
    ValidKeyStart(c) || '0' <= c <= '9'
  }

  predicate ValidKey(key: string) {
    key != "" && ValidKeyStart(key[0]) && forall i :: 1 <= i < |key| ==> ValidKeyCharacter(key[i])
  }

  // validEnvironmentKey, as the loop it is.
  method ValidEnvironmentKey(key: string) returns (valid: bool)
    ensures valid <==> ValidKey(key)
  {
    if key == "" || !ValidKeyStart(key[0]) {
      return false;
    }
    for index := 1 to |key|
      invariant forall i :: 1 <= i < index ==> ValidKeyCharacter(key[i])
    {
      if !ValidKeyCharacter(key[index]) {
        return false;
      }
    }
    valid := true;
  }

  datatype Line =
    | Nothing
    | NoDeclaration
    | BadValue(key: string)
    | Assignment(key: string, value: string)

  // strconv.Unquote is a parameter; it only sees values that start with a double quote.
  function ParseValue(value: string, unquote: string -> Option<string>): Option<string> {
    if value == "" then Some("")
    else if value[0] == '"' then unquote(value)
    else if value[0] == '\'' then
      if |value| < 2 || value[|value| - 1] != '\'' then None else Some(value[1..|value| - 1])
    else Some(value)
  }

  const EXPORT := "export "

  function WithoutExport(line: string): string {
    if EXPORT <= line then TrimSpace(line[|EXPORT|..]) else line
  }

  // What a key and a raw value on a line amount to, both trimmed.
  function Declare(key: string, rawValue: string, unquote: string -> Option<string>): (line: Line)
    ensures line.Assignment? ==> ValidKey(line.key)
  {
    if !ValidKey(key) then NoDeclaration
    else match ParseValue(rawValue, unquote)
         case None => BadValue(key)
         case Some(value) => Assignment(key, value)
  }

  function DeclareAt(line: string, cut: nat, unquote: string -> Option<string>): (r: Line)
    requires cut < |line|
    ensures r.Assignment? ==> ValidKey(r.key)
  {
    Declare(TrimSpace(line[..cut]), TrimSpace(line[cut + 1..]), unquote)
  }

  // A declaration, cut at its first equals sign.
  function ParseDeclaration(line: string, unquote: string -> Option<string>): (r: Line)
    ensures r.Assignment? ==> ValidKey(r.key)
  {
    var cut := IndexOf(line, '=');
    if cut == |line| then NoDeclaration else DeclareAt(line, cut, unquote)
  }

  // A line of the file; what counts as a declaration is left to parse.
  function ParseLine(raw: string, parse: string -> Line): Line {
    var line := TrimSpace(raw);
    if line == "" || line[0] == '#' then Nothing else parse(WithoutExport(line))
  }

  function LineParser(unquote: string -> Option<string>): string -> Line {
    raw => ParseLine(DropCR(raw), line => ParseDeclaration(line, unquote))
  }

  datatype ParseError = InvalidDeclaration(line: nat) | InvalidValue(line: nat, key: string) | LineTooLong

  // Parsing the rest of a file, from a line number on, with the values found so far.
  function Parse(text: string, line: nat, values: map<string, string>, parse: string -> Line): Result<map<string, string>, ParseError>
    decreases |text|
  {
    if text == "" then Ok(values)
    else
      var n := IndexOf(text, '\n');
      if n > MAX_LINE then Err(LineTooLong)
      else
        var rest := if n < |text| then text[n + 1..] else "";
        match parse(text[..n])
        case Nothing => Parse(rest, line + 1, values, parse)
        case NoDeclaration => Err(InvalidDeclaration(line))
        case BadValue(key) => Err(InvalidValue(line, key))
        case Assignment(key, value) => Parse(rest, line + 1, values[key := value], parse)
  }

  method ParseEnvironment(text: string, unquote: string -> Option<string>)
    returns (result: Result<map<string, string>, ParseError>)
    ensures result == Parse(text, 1, map[], LineParser(unquote))
  {
    var values: map<string, string> := map[];
    var lineNumber := 1;
    var rest := text;
    ghost var parse := LineParser(unquote);
    while rest != ""
      invariant Parse(text, 1, map[], parse) == Parse(rest, lineNumber, values, parse)
      decreases |rest|
    {
      var n := IndexOf(rest, '\n');
      if n > MAX_LINE {
        return Err(LineTooLong);
      }
      var line := LineParser(unquote)(rest[..n]);
      rest := if n < |rest| then rest[n + 1..] else "";
      match line {
        case Nothing =>
        case NoDeclaration => return Err(InvalidDeclaration(lineNumber));
        case BadValue(key) => return Err(InvalidValue(lineNumber, key));
        case Assignment(key, value) => values := values[key := value];
      }
      lineNumber := lineNumber + 1;
    }
    result := Ok(values);
  }

  lemma {:induction false} ParsedKeysCome(text: string, line: nat, values: map<string, string>, parse: string -> Line)
    requires forall key :: key in values ==> ValidKey(key)
    requires forall raw :: parse(raw).Assignment? ==> ValidKey(parse(raw).key)
    ensures Parse(text, line, values, parse).Ok? ==>
              forall key :: key in Parse(text, line, values, parse).value ==> ValidKey(key)
    decreases |text|
  {
    if text != "" {
      var n := IndexOf(text, '\n');
      if n <= MAX_LINE {
        var rest := if n < |text| then text[n + 1..] else "";
        match parse(text[..n])
        case Nothing => ParsedKeysCome(rest, line + 1, values, parse);
        case Assignment(key, value) => ParsedKeysCome(rest, line + 1, values[key := value], parse);
        case _ =>
      }
    }
  }

  lemma AssignedKeyIsValid(raw: string, parse: string -> Line)
    requires forall line :: parse(line).Assignment? ==> ValidKey(parse(line).key)
    ensures var line := ParseLine(raw, parse); line.Assignment? ==> ValidKey(line.key)
  {}

  // Every key of a successful parse is valid.
  lemma ParsedKeysAreValid(text: string, unquote: string -> Option<string>)
    ensures var result := Parse(text, 1, map[], LineParser(unquote));
            result.Ok? ==> forall key :: key in result.value ==> ValidKey(key)
  {
    forall raw ensures LineParser(unquote)(raw).Assignment? ==> ValidKey(LineParser(unquote)(raw).key) {
      AssignedKeyIsValid(DropCR(raw), line => ParseDeclaration(line, unquote));
    }
    ParsedKeysCome(text, 1, map[], LineParser(unquote));
  }

  // --- what a file written with single quotes parses to ---

  datatype Entry = Entry(key: string, value: string)

  predicate Writable(entry: Entry) {
    ValidKey(entry.key) && '\n' !in entry.value
  }

  function SingleQuoted(value: string): string {
    "'" + value + "'"
  }

  function Quoted(entry: Entry): string {
    entry.key + (['='] + SingleQuoted(entry.value))
  }

  function Render(entries: seq<Entry>): string {
    if entries == [] then "" else Quoted(entries[0]) + (['\n'] + Render(entries[1..]))
  }

  function LastWins(entries: seq<Entry>, values: map<string, string>): map<string, string>
    decreases |entries|
  {
    if entries == [] then values else LastWins(entries[1..], values[entries[0].key := entries[0].value])
  }

  lemma IndexOfFirst(before: string, c: char, after: string)
    requires c !in before
    ensures IndexOf(before + ([c] + after), c) == |before|
  {
    var s := before + ([c] + after);
    assert s[|before|] == c;
    assert forall i :: 0 <= i < |before| ==> s[i] == before[i];
  }

  lemma KeyCharacters(key: string, c: char)
    requires ValidKey(key) && !ValidKeyCharacter(c)
    ensures c !in key
  {
    if c in key {
      var i :| 0 <= i < |key| && key[i] == c;
    }
  }

  lemma KeyIsTrimmed(key: string)
    requires ValidKey(key)
    ensures TrimSpace(key) == key
  {
    assert ValidKeyCharacter(key[|key| - 1]);
    VisibleEndsAreTrimmed(key);
  }

  lemma QuotedDeclares(entry: Entry, unquote: string -> Option<string>)
    requires Writable(entry)
    ensures Declare(entry.key, SingleQuoted(entry.value), unquote) == Assignment(entry.key, entry.value)
  {
    var raw := SingleQuoted(entry.value);
    assert raw[1..|raw| - 1] == entry.value;
  }

  lemma CutAt(before: string, c: char, after: string)
    ensures (before + ([c] + after))[..|before|] == before && (before + ([c] + after))[|before| + 1..] == after
  {}

  lemma QuotedIsAssignment(entry: Entry, unquote: string -> Option<string>)
    requires Writable(entry)
    ensures ParseDeclaration(Quoted(entry), unquote) == Assignment(entry.key, entry.value)
  {
    var raw := SingleQuoted(entry.value);
    KeyCharacters(entry.key, '=');
    IndexOfFirst(entry.key, '=', raw);
    CutAt(entry.key, '=', raw);
    KeyIsTrimmed(entry.key);
    VisibleEndsAreTrimmed(raw);
    QuotedDeclares(entry, unquote);
  }

  // A quoted line does not start with "export ": a key has no space, and an equals sign follows it.
  lemma NoExport(entry: Entry)
    requires Writable(entry)
    ensures !(EXPORT <= Quoted(entry))
  {
    var line := Quoted(entry);
    KeyCharacters(entry.key, ' ');
    assert line[|entry.key|] == '=';
    assert |entry.key| > 6 ==> line[6] == entry.key[6];
  }

  lemma QuotedIsDeclaration(entry: Entry, parse: string -> Line)
    requires Writable(entry)
    ensures ParseLine(DropCR(Quoted(entry)), parse) == parse(Quoted(entry))
  {
    var line := Quoted(entry);
    assert line[0] == entry.key[0] && line[|line| - 1] == '\'';
    VisibleEndsAreTrimmed(line);
    NoExport(entry);
  }

  lemma QuotedLine(entry: Entry, unquote: string -> Option<string>)
    requires Writable(entry)
    ensures LineParser(unquote)(Quoted(entry)) == Assignment(entry.key, entry.value)
  {
    QuotedIsDeclaration(entry, line => ParseDeclaration(line, unquote));
    QuotedIsAssignment(entry, unquote);
  }

  ghost predicate Fit(entries: seq<Entry>) {
    forall entry :: entry in entries ==> |Quoted(entry)| <= MAX_LINE
  }

  ghost predicate ReadsAs(parse: string -> Line, entry: Entry) {
    parse(Quoted(entry)) == Assignment(entry.key, entry.value)
  }

  ghost predicate OneLine(entry: Entry) {
    '\n' !in Quoted(entry)
  }

  // The first line of a text, and what is left.
  lemma ParseFirst(first: string, after: string, line: nat, values: map<string, string>, entry: Entry, parse: string -> Line)
    requires first == Quoted(entry) && OneLine(entry) && ReadsAs(parse, entry)
    ensures Parse(first + (['\n'] + after), line, values, parse) ==
            if |first| <= MAX_LINE then Parse(after, line + 1, values[entry.key := entry.value], parse) else Err(LineTooLong)
  {
    IndexOfFirst(first, '\n', after);
    CutAt(first, '\n', after);
  }

  lemma {:induction false} ParseOfLines(entries: seq<Entry>, line: nat, values: map<string, string>, parse: string -> Line)
    requires forall entry :: entry in entries ==> OneLine(entry) && ReadsAs(parse, entry)
    ensures Parse(Render(entries), line, values, parse) ==
            if Fit(entries) then Ok(LastWins(entries, values)) else Err(LineTooLong)
    decreases |entries|
  {
    if entries != [] {
      var (head, tail) := (entries[0], entries[1..]);
      assert entries == [head] + tail;
      assert Fit(entries) <==> |Quoted(head)| <= MAX_LINE && Fit(tail);
      ParseFirst(Quoted(head), Render(tail), line, values, head, parse);
      ParseOfLines(tail, line + 1, values[head.key := head.value], parse);
    }
  }

  lemma WritableIsOneLine(entry: Entry)
    requires Writable(entry)
    ensures OneLine(entry)
  {
    KeyCharacters(entry.key, '\n');
  }

  // Parsing the lines KEY='value' of any writable entries gives the last value of each key, even if
  // values hold quotes, equals signs, hashes or outer white space; it fails exactly when a line is
  // longer than the scanner takes.
  lemma ParseOfRender(entries: seq<Entry>, unquote: string -> Option<string>)
    requires forall entry :: entry in entries ==> Writable(entry)
    ensures Parse(Render(entries), 1, map[], LineParser(unquote)) ==
            if Fit(entries) then Ok(LastWins(entries, map[])) else Err(LineTooLong)
  {
    forall entry | entry in entries ensures ReadsAs(LineParser(unquote), entry) {
      QuotedLine(entry, unquote);
    }
    forall entry | entry in entries ensures OneLine(entry) {
      WritableIsOneLine(entry);
    }
    ParseOfLines(entries, 1, map[], LineParser(unquote));
  }

  lemma {:induction false} LastWinsKeeps(entries: seq<Entry>, values: map<string, string>, key: string)
    requires forall e :: e in entries ==> e.key != key
    ensures key in LastWins(entries, values) <==> key in values
    ensures key in values ==> LastWins(entries, values)[key] == values[key]
    decreases |entries|
  {
    if entries != [] {
      assert entries[0] in entries;
      LastWinsKeeps(entries[1..], values[entries[0].key := entries[0].value], key);
    }
  }

  lemma {:induction false} LastWinsAt(entries: seq<Entry>, values: map<string, string>, i: nat)
    requires i < |entries| && forall j :: i < j < |entries| ==> entries[j].key != entries[i].key
    ensures entries[i].key in LastWins(entries, values) && LastWins(entries, values)[entries[i].key] == entries[i].value
    decreases |entries|
  {
    var (rest, next) := (entries[1..], values[entries[0].key := entries[0].value]);
    if i == 0 {
      LastWinsKeeps(rest, next, entries[0].key);
    } else {
      LastWinsAt(rest, next, i - 1);
    }
  }

  lemma {:induction false} LastWinsKeys(entries: seq<Entry>, values: map<string, string>, key: string)
    ensures key in LastWins(entries, values) <==> key in values || exists e :: e in entries && e.key == key
    decreases |entries|
  {
    if entries != [] {
      LastWinsKeys(entries[1..], values[entries[0].key := entries[0].value], key);
      assert entries == [entries[0]] + entries[1..];
    }
  }

  // The last value of each key, and no other keys.
  lemma LastWinsMeans(entries: seq<Entry>, values: map<string, string>, key: string)
    ensures key in LastWins(entries, values) <==> key in values || exists e :: e in entries && e.key == key
    ensures forall i :: 0 <= i < |entries| && entries[i].key == key
                        && (forall j :: i < j < |entries| ==> entries[j].key != key) ==>
              key in LastWins(entries, values) && LastWins(entries, values)[key] == entries[i].value
    ensures (forall e :: e in entries ==> e.key != key) && key in values ==>
              key in LastWins(entries, values) && LastWins(entries, values)[key] == values[key]
  {
    LastWinsKeys(entries, values, key);
    forall i | 0 <= i < |entries| && entries[i].key == key && (forall j :: i < j < |entries| ==> entries[j].key != key)
      ensures key in LastWins(entries, values) && LastWins(entries, values)[key] == entries[i].value
    {
      LastWinsAt(entries, values, i);
    }
    if forall e :: e in entries ==> e.key != key {
      LastWinsKeeps(entries, values, key);
    }
  }

  const LETTERS := "ABCDEFGHIJKLMNOPQRSTUVWXYZ"
  const SMALL_LETTERS := "abcdefghijklmnopqrstuvwxyz"
  const DIGITS := "0123456789"

  lemma CharacterByName(c: char)
    ensures ValidKeyStart(c) <==> c == '_' || c in LETTERS || c in SMALL_LETTERS
    ensures ValidKeyCharacter(c) <==> c == '_' || c in LETTERS || c in SMALL_LETTERS || c in DIGITS
    ensures ValidKeyStart(c) ==> c !in DIGITS
  {
  }

  // A key is made of underscores, letters and digits and does not start with a digit.
  lemma KeyByName(key: string)
    ensures ValidKey(key) <==>
            && key != "" && key[0] !in DIGITS
            && forall i :: 0 <= i < |key| ==> key[i] == '_' || key[i] in LETTERS || key[i] in SMALL_LETTERS || key[i] in DIGITS
  {
    forall i | 0 <= i < |key|
      ensures ValidKeyCharacter(key[i]) <==>
              key[i] == '_' || key[i] in LETTERS || key[i] in SMALL_LETTERS || key[i] in DIGITS
    {
      CharacterByName(key[i]);
    }
    if key != "" {
      CharacterByName(key[0]);
    }
  }
}
