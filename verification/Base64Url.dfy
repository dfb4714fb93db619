// Unpadded URL-safe base64 (base64.RawURLEncoding; section 5 of RFC 4648): bytes are cut into
// sextets, and each sextet is written as one symbol.

module Base64Url {
  import opened Wrappers
  import opened Text

  newtype Sextet = v: int | 0 <= v < 64

  function Symbol(v: Sextet): char {
    if v < 26 then 'A' + v as char
    else if v < 52 then 'a' + (v - 26) as char
    else if v < 62 then '0' + (v - 52) as char
    else if v == 62 then '-'
    else '_'
  }

  function Value(c: char): Option<Sextet> {
    if 'A' <= c <= 'Z' then Some((c as int - 'A' as int) as Sextet)
    else if 'a' <= c <= 'z' then Some((c as int - 'a' as int + 26) as Sextet)
    else if '0' <= c <= '9' then Some((c as int - '0' as int + 52) as Sextet)
    else if c == '-' then Some(62)
    else if c == '_' then Some(63)
    else None
  }

  // A group of three bytes as four sextets; a shorter last group is filled up with zero bits.
  function Cut(x: int, y: int, z: int): seq<Sextet>
    requires 0 <= x < 256 && 0 <= y < 256 && 0 <= z < 256
  {
    [(x / 4) as Sextet, (x % 4 * 16 + y / 16) as Sextet, (y % 16 * 4 + z / 64) as Sextet, (z % 64) as Sextet]
  }

  function Sextets(b: string): seq<Sextet>
    requires IsBytes(b)
  {
    if |b| == 0 then []
    else if |b| == 1 then Cut(b[0] as int, 0, 0)[..2]
    else if |b| == 2 then Cut(b[0] as int, b[1] as int, 0)[..3]
    else Cut(b[0] as int, b[1] as int, b[2] as int) + Sextets(b[3..])
  }

  function First(a: Sextet, b: Sextet): char { (a as int * 4 + b as int / 16) as char }
  function Second(b: Sextet, c: Sextet): char { (b as int % 16 * 16 + c as int / 4) as char }
  function Third(c: Sextet, d: Sextet): char { (c as int % 4 * 64 + d as int) as char }

  function FromSextets(s: seq<Sextet>): Option<string> {
    if |s| == 0 then Some("")
    else if |s| == 1 then None
    else if |s| == 2 then Some([First(s[0], s[1])])
    else if |s| == 3 then Some([First(s[0], s[1]), Second(s[1], s[2])])
    else match FromSextets(s[4..])
         case Some(rest) => Some([First(s[0], s[1]), Second(s[1], s[2]), Third(s[2], s[3])] + rest)
         case None => None
  }

  function Symbols(s: seq<Sextet>): string {
    if s == [] then "" else [Symbol(s[0])] + Symbols(s[1..])
  }

  function Values(text: string): Option<seq<Sextet>> {
    if text == "" then Some([])
    else match (Value(text[0]), Values(text[1..]))
         case (Some(v), Some(rest)) => Some([v] + rest)
         case _ => None
  }

  function Encode(b: string): string
    requires IsBytes(b)
  {
    Symbols(Sextets(b))
  }

  function Decode(text: string): Option<string> {
    match Values(text)
    case Some(s) => FromSextets(s)
    case None => None
  }

  // The characters section 4.1 of RFC 7636 allows in a verifier.
  predicate Unreserved(c: char) {
    'A' <= c <= 'Z' || 'a' <= c <= 'z' || '0' <= c <= '9' || c == '-' || c == '.' || c == '_' || c == '~'
  }

  // A byte put together again from its upper and its lower bits.
  lemma FirstOfCut(x: int, y: int)
    requires 0 <= x < 256 && 0 <= y < 256
    ensures x / 4 * 4 + (x % 4 * 16 + y / 16) / 16 == x
  {}

  lemma SecondOfCut(x: int, y: int, z: int)
    requires 0 <= x < 256 && 0 <= y < 256 && 0 <= z < 256
    ensures (x % 4 * 16 + y / 16) % 16 * 16 + (y % 16 * 4 + z / 64) / 4 == y
  {
    LowBits(x % 4, y / 16);
    assert (y % 16 * 4 + z / 64) / 4 == y % 16;
  }

  lemma LowBits(a: int, b: int)
    requires 0 <= b < 16
    ensures (a * 16 + b) % 16 == b
  {}

  lemma ThirdOfCut(y: int, z: int)
    requires 0 <= y < 256 && 0 <= z < 256
    ensures (y % 16 * 4 + z / 64) % 4 * 64 + z % 64 == z
  {}

  lemma JoinCut(x: char, y: char, z: char)
    requires x as int < 256 && y as int < 256 && z as int < 256
    ensures var g := Cut(x as int, y as int, z as int);
            First(g[0], g[1]) == x && Second(g[1], g[2]) == y && Third(g[2], g[3]) == z
  {
    FirstOfCut(x as int, y as int);
    SecondOfCut(x as int, y as int, z as int);
    ThirdOfCut(y as int, z as int);
  }

  lemma {:induction false} FromSextetsOfSextets(b: string)
    requires IsBytes(b)
    ensures FromSextets(Sextets(b)) == Some(b)
    decreases |b|
  {
    match |b|
    case 0 =>
    case 1 =>
      JoinCut(b[0], 0 as char, 0 as char);
      assert b == [b[0]];
    case 2 =>
      JoinCut(b[0], b[1], 0 as char);
      assert b == [b[0], b[1]];
    case _ =>
      JoinCut(b[0], b[1], b[2]);
      FromSextetsOfSextets(b[3..]);
      var g := Cut(b[0] as int, b[1] as int, b[2] as int);
      assert Sextets(b) == g + Sextets(b[3..]);
      assert (g + Sextets(b[3..]))[4..] == Sextets(b[3..]);
      assert b == [b[0], b[1], b[2]] + b[3..];
  }

  lemma ValueOfSymbol(v: Sextet)
    ensures Value(Symbol(v)) == Some(v) && Unreserved(Symbol(v))
  {}

  lemma {:induction false} SymbolsShape(s: seq<Sextet>)
    ensures |Symbols(s)| == |s| && Values(Symbols(s)) == Some(s)
    ensures forall i :: 0 <= i < |s| ==> Unreserved(Symbols(s)[i])
  {
    if s != [] {
      SymbolsShape(s[1..]);
      ValueOfSymbol(s[0]);
      assert Symbols(s)[1..] == Symbols(s[1..]);
      assert s == [s[0]] + s[1..];
    }
  }

  lemma {:induction false} SextetCount(b: string)
    requires IsBytes(b)
    ensures |Sextets(b)| == (4 * |b| + 2) / 3
    decreases |b|
  {
    if |b| > 2 {
      SextetCount(b[3..]);
    }
  }

  // Decoding what was encoded gives the bytes back.
  lemma DecodeEncode(b: string)
    requires IsBytes(b)
    ensures Decode(Encode(b)) == Some(b)
  {
    SymbolsShape(Sextets(b));
    FromSextetsOfSextets(b);
  }

  // The length and the alphabet of an encoding; 32 bytes give exactly 43 characters.
  lemma EncodingShape(b: string)
    requires IsBytes(b)
    ensures |Encode(b)| == (4 * |b| + 2) / 3
    ensures forall i :: 0 <= i < |Encode(b)| ==> Unreserved(Encode(b)[i])
  {
    SymbolsShape(Sextets(b));
    SextetCount(b);
  }

  // Different bytes have different encodings.
  lemma EncodeIsInjective(a: string, b: string)
    requires IsBytes(a) && IsBytes(b) && Encode(a) == Encode(b)
    ensures a == b
  {
    DecodeEncode(a);
    DecodeEncode(b);
  }

  // --- the encoding digit by digit ---

  const UPPER := "ABCDEFGHIJKLMNOPQRSTUVWXYZ"
  const LOWER := "abcdefghijklmnopqrstuvwxyz"
  const ALPHABET := UPPER + LOWER + "0123456789-_"

  lemma UpperAt(i: nat)
    requires i < 26
    ensures UPPER[i] == 'A' + i as char
  {
  }

  lemma LowerAt(i: nat)
    requires i < 26
    ensures LOWER[i] == 'a' + i as char
  {
  }

  lemma SymbolIsInAlphabet(v: Sextet)
    ensures |ALPHABET| == 64 && Symbol(v) == ALPHABET[v as int]
  {
    var i := v as int;
    if i < 26 {
      UpperAt(i);
      assert ALPHABET[i] == UPPER[i];
    } else if i < 52 {
      LowerAt(i - 26);
      assert ALPHABET[i] == LOWER[i - 26];
    } else {
      assert ALPHABET[i] == "0123456789-_"[i - 52];
    }
  }

  // A group of three bytes as a number; bytes that are missing count as zero.
  function Group(b: string, i: nat): nat {
    Byte(b, i) * 0x1_0000 + Byte(b, i + 1) * 0x100 + Byte(b, i + 2)
  }

  function Byte(b: string, i: nat): nat {
    if i < |b| then b[i] as nat else 0
  }

  // The number written with four digits to the base 64.
  function Number(d: seq<Sextet>): nat
    requires |d| == 4
  {
    d[0] as nat * 0x4_0000 + d[1] as nat * 0x1000 + d[2] as nat * 0x40 + d[3] as nat
  }

  lemma CutIsPositional(x: int, y: int, z: int)
    requires 0 <= x < 256 && 0 <= y < 256 && 0 <= z < 256
    ensures Number(Cut(x, y, z)) == x * 0x1_0000 + y * 0x100 + z
  {
  }

  function GroupDigits(b: string, i: nat): seq<Sextet>
    requires IsBytes(b)
  {
    Cut(Byte(b, i), Byte(b, i + 1), Byte(b, i + 2))
  }

  lemma {:induction false} SextetAt(b: string, g: nat, k: nat)
    requires IsBytes(b) && g * 4 + k < |Sextets(b)| && k < 4
    ensures Sextets(b)[g * 4 + k] == GroupDigits(b, g * 3)[k]
    decreases g
  {
    if g == 0 {
      FirstSextets(b, k);
    } else {
      LaterSextets(b, g * 4 + k);
      SextetAt(b[3..], g - 1, k);
      DigitsOfRest(b, g * 3 - 3);
    }
  }

  lemma LaterSextets(b: string, i: nat)
    requires IsBytes(b) && 4 <= i < |Sextets(b)|
    ensures |b| > 3 && i - 4 < |Sextets(b[3..])| && Sextets(b)[i] == Sextets(b[3..])[i - 4]
  {
  }

  lemma FirstSextets(b: string, i: nat)
    requires IsBytes(b) && i < |Sextets(b)| && i < 4
    ensures Sextets(b)[i] == GroupDigits(b, 0)[i]
  {
  }

  lemma DigitsOfRest(b: string, i: nat)
    requires IsBytes(b) && |b| >= 3
    ensures GroupDigits(b[3..], i) == GroupDigits(b, i + 3)
  {
  }

  lemma {:induction false} SymbolAt(s: seq<Sextet>, i: nat)
    requires i < |s|
    ensures i < |Symbols(s)| && Symbols(s)[i] == Symbol(s[i])
  {
    if i > 0 {
      SymbolAt(s[1..], i - 1);
    }
  }

  lemma SextetIsWritten(b: string, i: nat)
    requires IsBytes(b) && i < |Encode(b)|
    ensures i < |Sextets(b)| && Encode(b)[i] == Symbol(Sextets(b)[i])
  {
    SymbolsShape(Sextets(b));
    SymbolAt(Sextets(b), i);
  }

  // The encoding by its definition: every three bytes are a number of four digits to the base 64, each
  // written by the character of the alphabet in its place, as far as the encoding goes.
  lemma EncodingByDigits(b: string, g: nat, k: nat) returns (digits: seq<Sextet>)
    requires IsBytes(b) && g * 4 + k < |Encode(b)| && k < 4
    ensures |digits| == 4 && Number(digits) == Group(b, g * 3)
    ensures |ALPHABET| == 64 && Encode(b)[g * 4 + k] == ALPHABET[digits[k] as int]
  {
    digits := GroupDigits(b, g * 3);
    CutIsPositional(Byte(b, g * 3), Byte(b, g * 3 + 1), Byte(b, g * 3 + 2));
    SextetIsWritten(b, g * 4 + k);
    SextetAt(b, g, k);
    SymbolIsInAlphabet(digits[k]);
  }
}
