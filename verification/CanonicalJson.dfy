/** JSON-native values as the canonical AST uses them, their deterministic text, and a reader for that
    text (sections 5, 6 and 7 of RFC 8259). */
module CanonicalJson {
  import opened Wrappers

  datatype Json = JNull | JBool(b: bool) | JInt(i: int) | JStr(s: string) | JArr(items: seq<Json>)

  // ----- json.dumps with separators (",", ":"), ensure_ascii=False -----
  // Each printer puts its text in front of `rest`; Text(j) prints with nothing behind it.

  function Text(j: Json): string {
    Print(j, "")
  }

  function Print(j: Json, rest: string): string
    decreases j, 0
  {
    match j
    case JNull => "null" + rest
    case JBool(b) => (if b then "true" else "false") + rest
    case JInt(i) => PrintInt(i, rest)
    case JStr(s) => ['"'] + PrintChars(s, ['"'] + rest)
    case JArr(items) => ['['] + PrintItems(items, [']'] + rest)
  }

  function PrintItems(items: seq<Json>, rest: string): string
    decreases items
  {
    if items == [] then rest
    else if |items| == 1 then Print(items[0], rest)
    else Print(items[0], [','] + PrintItems(items[1..], rest))
  }

  function Digit(d: nat): (c: char)
    requires d < 10
    ensures IsDigit(c) && DigitValue(c) == d
  {
    (d + 48) as char
  }

  predicate IsDigit(c: char) {
    '0' <= c <= '9'
  }

  function DigitValue(c: char): nat
    requires IsDigit(c)
  {
    c as int - 48
  }

  function PrintInt(i: int, rest: string): string {
    if i < 0 then ['-'] + PrintNat(-i, rest) else PrintNat(i, rest)
  }

  function PrintNat(n: nat, rest: string): string
    decreases n
  {
    if n < 10 then [Digit(n)] + rest else PrintNat(n / 10, [Digit(n % 10)] + rest)
  }

  const BACKSPACE: char := '\U{0008}'
  const FORM_FEED: char := '\U{000C}'

  /** Only the quote, the backslash and control characters are escaped. */
  function EscapeChar(c: char): string {
    if c == '"' then ['\\', '"']
    else if c == '\\' then ['\\', '\\']
    else if c == '\n' then ['\\', 'n']
    else if c == '\r' then ['\\', 'r']
    else if c == '\t' then ['\\', 't']
    else if c == BACKSPACE then ['\\', 'b']
    else if c == FORM_FEED then ['\\', 'f']
    else if c as int < 0x20 then ['\\', 'u', '0', '0', HexDigit(c as int / 16), HexDigit(c as int % 16)]
    else [c]
  }

  function HexDigit(d: nat): (c: char)
    requires d < 16
    ensures HexValue(c) == Some(d)
  {
    if d < 10 then (d + 48) as char else (d + 87) as char
  }

  function HexValue(c: char): (v: Option<nat>)
    ensures v.Some? ==> v.value < 16
  {
    if '0' <= c <= '9' then Some(c as int - 48)
    else if 'a' <= c <= 'f' then Some(c as int - 87)
    else if 'A' <= c <= 'F' then Some(c as int - 55)
    else None
  }

  function PrintChars(s: string, rest: string): string {
    if s == "" then rest else EscapeChar(s[0]) + PrintChars(s[1..], rest)
  }

  /** A minus sign is written exactly for a negative integer, and no number starts with a zero but zero itself. */
  lemma {:induction false} IntegerExactly(i: int, rest: string)
    ensures PrintInt(i, rest) != "" && (PrintInt(i, rest)[0] == '-' <==> i < 0)
    ensures i < 0 ==> |PrintInt(i, rest)| > 1 && PrintInt(i, rest)[1] != '0'
    ensures PrintInt(i, rest)[0] == '0' <==> i == 0
  {
    LeadingDigit(if i < 0 then -i else i, rest);
  }

  lemma {:induction false} LeadingDigit(n: nat, rest: string)
    ensures PrintNat(n, rest) != "" && IsDigit(PrintNat(n, rest)[0])
    ensures PrintNat(n, rest)[0] == '0' <==> n == 0
    decreases n
  {
    if n >= 10 {
      LeadingDigit(n / 10, [Digit(n % 10)] + rest);
    }
  }

  /** A character is written as itself unless it is the quote, the backslash or a control character. Seven have an
      escape of one letter; the other control characters take six characters, with lower-case digits. */
  lemma {:induction false} EscapedExactly(c: char)
    ensures EscapeChar(c) == [c] <==> c >= ' ' && c != '"' && c != '\\'
    ensures |EscapeChar(c)| == 2 <==> c in {'"', '\\', '\n', '\r', '\t', BACKSPACE, FORM_FEED}
    ensures |EscapeChar(c)| in {1, 2, 6} && forall x | x in EscapeChar(c) && x != c :: !('A' <= x <= 'F')
  {
    if |EscapeChar(c)| == 6 {
      assert EscapeChar(c)[..4] == ['\\', 'u', '0', '0'];
    }
  }

  // ----- the reader -----

  datatype Read<+T> = Read(value: T, rest: string)

  function ReadDigits(s: string, acc: nat): (r: Read<nat>)
    ensures |r.rest| <= |s|
  {
    if s != "" && IsDigit(s[0]) then ReadDigits(s[1..], 10 * acc + DigitValue(s[0])) else Read(acc, s)
  }

  /** int = zero / ( digit1-9 *DIGIT ), section 6 */
  function ReadNat(s: string): (r: Option<Read<nat>>)
    ensures r.Some? ==> |r.value.rest| < |s|
  {
    if s == "" || !IsDigit(s[0]) then None
    else if s[0] == '0' then Some(Read(0, s[1..]))
    else Some(ReadDigits(s[1..], DigitValue(s[0])))
  }

  function ReadInt(s: string): (r: Option<Read<int>>)
    ensures r.Some? ==> |r.value.rest| < |s|
  {
    if s != "" && s[0] == '-' then
      match ReadNat(s[1..])
      case None => None
      case Some(n) => var i: int := n.value; Some(Read(-i, n.rest))
    else
      match ReadNat(s)
      case None => None
      case Some(n) => Some(Read(n.value as int, n.rest))
  }

  /** One escape after the backslash, section 7. */
  function ReadEscape(s: string): (r: Option<Read<char>>)
    ensures r.Some? ==> |r.value.rest| < |s|
  {
    if s == "" then None
    else if s[0] == '"' then Some(Read('"', s[1..]))
    else if s[0] == '\\' then Some(Read('\\', s[1..]))
    else if s[0] == '/' then Some(Read('/', s[1..]))
    else if s[0] == 'n' then Some(Read('\n', s[1..]))
    else if s[0] == 'r' then Some(Read('\r', s[1..]))
    else if s[0] == 't' then Some(Read('\t', s[1..]))
    else if s[0] == 'b' then Some(Read(BACKSPACE, s[1..]))
    else if s[0] == 'f' then Some(Read(FORM_FEED, s[1..]))
    else if s[0] == 'u' && |s| >= 5 then ReadHex(s)
    else None
  }

  function ReadHex(s: string): (r: Option<Read<char>>)
    requires |s| >= 5
    ensures r.Some? ==> |r.value.rest| < |s|
  {
    var a, b, c, d := HexValue(s[1]), HexValue(s[2]), HexValue(s[3]), HexValue(s[4]);
    if a.None? || b.None? || c.None? || d.None? then None
    else
      var code := 4096 * a.value + 256 * b.value + 16 * c.value + d.value;
      if 0xD800 <= code < 0xE000 then None else Some(Read(code as char, s[5..]))
  }

  /** The characters of a string up to and including its closing quote. */
  function ReadChars(s: string): (r: Option<Read<string>>)
    ensures r.Some? ==> |r.value.rest| < |s|
    decreases |s|
  {
    if s == "" || s[0] as int < 0x20 then None
    else if s[0] == '"' then Some(Read("", s[1..]))
    else if s[0] == '\\' then
      match ReadEscape(s[1..])
      case None => None
      case Some(e) =>
        match ReadChars(e.rest)
        case None => None
        case Some(more) => Some(Read([e.value] + more.value, more.rest))
    else
      match ReadChars(s[1..])
      case None => None
      case Some(more) => Some(Read([s[0]] + more.value, more.rest))
  }

  function ReadValue(s: string): (r: Option<Read<Json>>)
    ensures r.Some? ==> |r.value.rest| < |s|
    decreases |s|, 0
  {
    if s == "" then None
    else if s[0] == '[' then
      if |s| >= 2 && s[1] == ']' then Some(Read(JArr([]), s[2..]))
      else
        match ReadItems(s[1..])
        case None => None
        case Some(items) => Some(Read(JArr(items.value), items.rest))
    else if s[0] == '"' then
      match ReadChars(s[1..])
      case None => None
      case Some(chars) => Some(Read(JStr(chars.value), chars.rest))
    else if |s| >= 4 && s[..4] == "null" then Some(Read(JNull, s[4..]))
    else if |s| >= 4 && s[..4] == "true" then Some(Read(JBool(true), s[4..]))
    else if |s| >= 5 && s[..5] == "false" then Some(Read(JBool(false), s[5..]))
    else
      match ReadInt(s)
      case None => None
      case Some(i) => Some(Read(JInt(i.value), i.rest))
  }

  /** value *( "," value ) "]" */
  function ReadItems(s: string): (r: Option<Read<seq<Json>>>)
    ensures r.Some? ==> |r.value.rest| < |s|
    decreases |s|, 1
  {
    match ReadValue(s)
    case None => None
    case Some(first) =>
      if first.rest == "" then None
      else if first.rest[0] == ']' then Some(Read([first.value], first.rest[1..]))
      else if first.rest[0] == ',' then
        match ReadItems(first.rest[1..])
        case None => None
        case Some(more) => Some(Read([first.value] + more.value, more.rest))
      else None
  }

  /** A whole document: one value and nothing behind it. */
  function Parse(s: string): Option<Json> {
    match ReadValue(s)
    case None => None
    case Some(r) => if r.rest == "" then Some(r.value) else None
  }

  // ----- the round trip -----

  /** Nothing behind a value may continue a number. */
  predicate EndsNumber(rest: string) {
    rest == "" || !IsDigit(rest[0])
  }

  lemma {:induction false} ReadPrintedDigits(n: nat, rest: string, acc: nat)
    ensures PrintNat(n, rest) != "" && IsDigit(PrintNat(n, rest)[0])
    ensures n > 0 ==> PrintNat(n, rest)[0] != '0'
    ensures n == 0 ==> PrintNat(n, rest) == ['0'] + rest
    ensures ReadDigits(PrintNat(n, rest), 0) == ReadDigits(rest, n)
    decreases n
  {
    if n >= 10 {
      ReadPrintedDigits(n / 10, [Digit(n % 10)] + rest, acc);
      assert ([Digit(n % 10)] + rest)[1..] == rest;
    } else {
      assert ([Digit(n)] + rest)[1..] == rest;
    }
  }

  lemma {:induction false} ReadPrintedNat(n: nat, rest: string)
    requires EndsNumber(rest)
    ensures ReadNat(PrintNat(n, rest)) == Some(Read(n, rest))
  {
    ReadPrintedDigits(n, rest, 0);
    var s := PrintNat(n, rest);
    if n > 0 {
      assert ReadDigits(s, 0) == ReadDigits(s[1..], DigitValue(s[0]));
      assert ReadDigits(rest, n) == Read(n, rest);
    } else {
      assert s[1..] == rest;
    }
  }

  lemma {:induction false} ReadPrintedInt(i: int, rest: string)
    requires EndsNumber(rest)
    ensures PrintInt(i, rest) != "" && (IsDigit(PrintInt(i, rest)[0]) || PrintInt(i, rest)[0] == '-')
    ensures ReadInt(PrintInt(i, rest)) == Some(Read(i, rest))
  {
    if i < 0 {
      ReadPrintedNat(-i, rest);
      assert PrintInt(i, rest)[1..] == PrintNat(-i, rest);
    } else {
      ReadPrintedNat(i, rest);
      ReadPrintedDigits(i, rest, 0);
    }
  }

  lemma {:induction false} ReadEscaped(c: char, rest: string)
    requires EscapeChar(c) != [c]
    ensures |EscapeChar(c)| >= 2 && EscapeChar(c)[0] == '\\'
    ensures ReadEscape((EscapeChar(c) + rest)[1..]) == Some(Read(c, rest))
  {
    var e := EscapeChar(c);
    var s := (e + rest)[1..];
    assert s == e[1..] + rest;
    if |e| == 2 {
      assert s[1..] == rest;
    } else {
      assert s[5..] == rest;
      assert s[1] == '0' && s[2] == '0';
      assert HexValue('0') == Some(0);
    }
  }

  lemma {:induction false} ReadPrintedChars(s: string, rest: string)
    ensures ReadChars(PrintChars(s, ['"'] + rest)) == Some(Read(s, rest))
  {
    if s == "" {
      assert (['"'] + rest)[1..] == rest;
    } else {
      ReadPrintedChars(s[1..], rest);
      var c, more := s[0], PrintChars(s[1..], ['"'] + rest);
      var text := EscapeChar(c) + more;
      assert s == [c] + s[1..];
      if EscapeChar(c) == [c] {
        assert text[1..] == more;
      } else {
        ReadEscaped(c, more);
      }
    }
  }

  lemma {:induction false} ReadPrintedWord(j: Json, rest: string)
    requires j.JNull? || j.JBool?
    ensures Print(j, rest) != "" && Print(j, rest)[0] != ']'
    ensures ReadValue(Print(j, rest)) == Some(Read(j, rest))
  {
    var s := Print(j, rest);
    if j == JNull {
      assert s[..4] == "null" && s[4..] == rest;
    } else if j.b {
      assert s[..4] == "true" && s[4..] == rest;
      assert s[..4][0] == 't';
    } else {
      assert s[..5] == "false" && s[5..] == rest;
      assert s[..4][0] == 'f';
    }
  }

  lemma {:induction false} ReadPrinted(j: Json, rest: string)
    requires EndsNumber(rest)
    ensures Print(j, rest) != "" && Print(j, rest)[0] != ']'
    ensures ReadValue(Print(j, rest)) == Some(Read(j, rest))
    decreases j, 0
  {
    match j
    case JNull => ReadPrintedWord(j, rest);
    case JBool(b) => ReadPrintedWord(j, rest);
    case JInt(i) => ReadPrintedInt(i, rest);
    case JStr(t) =>
      ReadPrintedChars(t, rest);
      assert Print(j, rest)[1..] == PrintChars(t, ['"'] + rest);
    case JArr(items) =>
      if items == [] {
        var s := ['['] + ([']'] + rest);
        assert s[1] == ']' && s[2..] == rest;
      } else {
        ReadPrintedItems(items, rest);
        assert Print(j, rest)[1..] == PrintItems(items, [']'] + rest);
      }
  }

  lemma {:induction false} ReadPrintedItems(items: seq<Json>, rest: string)
    requires items != []
    ensures PrintItems(items, [']'] + rest) != "" && PrintItems(items, [']'] + rest)[0] != ']'
    ensures ReadItems(PrintItems(items, [']'] + rest)) == Some(Read(items, rest))
    decreases items
  {
    if |items| == 1 {
      ReadPrinted(items[0], [']'] + rest);
      assert ([']'] + rest)[1..] == rest;
      assert items == [items[0]];
    } else {
      var more := PrintItems(items[1..], [']'] + rest);
      ReadPrintedItems(items[1..], rest);
      ReadPrinted(items[0], [','] + more);
      assert ([','] + more)[1..] == more;
      assert items == [items[0]] + items[1..];
    }
  }

  /** The text of an AST parses back to that AST. */
  lemma {:induction false} TextRoundTrip(j: Json)
    ensures Parse(Text(j)) == Some(j)
  {
    ReadPrinted(j, "");
  }

  /** Hence no two ASTs share a text. */
  lemma {:induction false} TextInjective(a: Json, b: Json)
    ensures Text(a) == Text(b) <==> a == b
  {
    TextRoundTrip(a);
    TextRoundTrip(b);
  }
}
