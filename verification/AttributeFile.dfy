/** The text format of an account file: escaping (src/common/util.c), the line reader
    (file_get_line) and the line scanner and writer of account.c. */
module AttributeFile {
  import opened Text
  import opened Attributes

  // ---------------------------------------------------------------- escaping

  predicate Printable(c: char) {
    ' ' <= c <= '~'
  }

  predicate OctalDigit(c: char) {
    '0' <= c <= '7'
  }

  function Digit(d: nat): char
    requires d < 8
  {
    ('0' as int + d) as char
  }

  /** The letter that stands for a control character after a backslash. */
  function ControlLetter(c: char): Option<char> {
    match c as int
    case 7 => Some('a')
    case 8 => Some('b')
    case 9 => Some('t')
    case 10 => Some('n')
    case 11 => Some('v')
    case 12 => Some('f')
    case 13 => Some('r')
    case _ => None
  }

  function EscapeChar(c: char): string
    requires IsByte(c)
  {
    if c == '\\' || c == '\"' then ['\\', c]
    else if Printable(c) then [c]
    else if ControlLetter(c).Some? then ['\\', ControlLetter(c).value]
    else ['\\', Digit(c as int / 64), Digit(c as int / 8 % 8), Digit(c as int % 8)]
  }

  function Escape(s: string): string
    requires CString(s)
  {
    if s == [] then [] else EscapeChar(s[0]) + Escape(s[1..])
  }

  /** What the character after a backslash denotes, for the one-letter escapes. */
  function LetterMeaning(c: char): Option<char> {
    match c
    case '\\' => Some('\\')
    case '\"' => Some('\"')
    case 'a' => Some(7 as char)
    case 'b' => Some(8 as char)
    case 't' => Some(9 as char)
    case 'n' => Some(10 as char)
    case 'v' => Some(11 as char)
    case 'f' => Some(12 as char)
    case 'r' => Some(13 as char)
    case _ => None
  }

  /** How many of the first `limit` characters are octal digits, counting from the start. */
  function OctalRun(s: string, limit: nat): (n: nat)
    ensures n <= limit && n <= |s|
    ensures forall i | 0 <= i < n :: OctalDigit(s[i])
    ensures n < limit && n < |s| ==> !OctalDigit(s[n])
  {
    if limit == 0 || s == [] || !OctalDigit(s[0]) then 0 else 1 + OctalRun(s[1..], limit - 1)
  }

  function DigitValue(c: char): nat
    requires OctalDigit(c)
  {
    c as int - '0' as int
  }

  function OctalValue(s: string): nat
    requires forall i | 0 <= i < |s| :: OctalDigit(s[i])
  {
    if s == [] then 0 else 8 * OctalValue(s[..|s| - 1]) + DigitValue(s[|s| - 1])
  }

  /** The numeric escape whose digits are `d`: malformed ones, \000 included, stay as written. */
  function OctalMeaning(d: string): string
    requires |d| <= 3 && forall i | 0 <= i < |d| :: OctalDigit(d[i])
  {
    if |d| < 3 || OctalValue(d) < 1 || OctalValue(d) > 255 then ['\\'] + d
    else [OctalValue(d) as char]
  }

  /** One turn of the decoding loop: the text produced and the number of characters consumed. */
  datatype Decoded = Decoded(text: string, used: nat)

  function DecodeHead(s: string): (d: Decoded)
    requires s != []
    ensures 1 <= d.used <= |s|
  {
    if s[0] != '\\' then Decoded([s[0]], 1)
    else if |s| >= 2 && LetterMeaning(s[1]).Some? then Decoded([LetterMeaning(s[1]).value], 2)
    else
      var n := OctalRun(s[1..], 3);
      Decoded(OctalMeaning(s[1..1 + n]), 1 + n)
  }

  function Unescape(s: string): string {
    if s == [] then [] else DecodeHead(s).text + Unescape(s[DecodeHead(s).used..])
  }

  lemma OctalValue3(d: string)
    requires |d| == 3 && OctalDigit(d[0]) && OctalDigit(d[1]) && OctalDigit(d[2])
    ensures OctalValue(d) == 64 * DigitValue(d[0]) + 8 * DigitValue(d[1]) + DigitValue(d[2])
  {
    var d2 := d[..2];
    var d1 := d2[..1];
    assert OctalValue(d1) == DigitValue(d[0]);
    assert OctalValue(d2) == 8 * OctalValue(d1) + DigitValue(d[1]);
  }

  lemma DecodeOctal(d: string, rest: string)
    requires |d| == 3 && OctalDigit(d[0]) && OctalDigit(d[1]) && OctalDigit(d[2])
    ensures DecodeHead(['\\'] + d + rest) == Decoded(OctalMeaning(d), 4)
  {
    var t := ['\\'] + d + rest;
    assert t[1..] == d + rest;
    assert OctalRun(t[1..][1..][1..], 1) == 1;
    assert OctalRun(t[1..][1..], 2) == 2;
    assert OctalRun(t[1..], 3) == 3;
    assert t[1..4] == d;
  }

  lemma OctalOfByte(c: char)
    requires IsByte(c)
    ensures OctalMeaning([Digit(c as int / 64), Digit(c as int / 8 % 8), Digit(c as int % 8)]) == [c]
  {
    OctalValue3([Digit(c as int / 64), Digit(c as int / 8 % 8), Digit(c as int % 8)]);
  }

  /** Whatever follows it, an escaped character reads back as itself. */
  lemma DecodeEscaped(c: char, rest: string)
    requires IsByte(c)
    ensures DecodeHead(EscapeChar(c) + rest) == Decoded([c], |EscapeChar(c)|)
  {
    var e := EscapeChar(c);
    var t := e + rest;
    if |e| == 2 {
      assert t[0] == '\\' && t[1] == e[1];
      assert LetterMeaning(e[1]) == Some(c);
    } else if |e| == 4 {
      assert e[1..] == [Digit(c as int / 64), Digit(c as int / 8 % 8), Digit(c as int % 8)];
      assert t == ['\\'] + e[1..] + rest;
      DecodeOctal(e[1..], rest);
      OctalOfByte(c);
    }
  }

  /** Reading back an escaped string consumes exactly that string. */
  lemma {:induction false} UnescapePrefix(s: string, rest: string)
    requires CString(s)
    ensures Unescape(Escape(s) + rest) == s + Unescape(rest)
  {
    hide EscapeChar, DecodeHead;
    if s == [] {
      assert Escape(s) + rest == rest;
    } else {
      var e, t := EscapeChar(s[0]), Escape(s[1..]);
      assert Escape(s) + rest == e + (t + rest);
      DecodeEscaped(s[0], t + rest);
      assert (e + (t + rest))[|e|..] == t + rest;
      UnescapePrefix(s[1..], rest);
    }
  }

  lemma UnescapeInvertsEscape(s: string)
    requires CString(s)
    ensures Unescape(Escape(s)) == s
  {
    UnescapePrefix(s, []);
    assert Escape(s) + [] == Escape(s);
  }

  /** escape_chars: one pass over the input, appending to the output. */
  method EscapeChars(input: string) returns (out: string)
    requires CString(input)
    ensures out == Escape(input)
  {
    hide EscapeChar;
    out := "";
    var pos := 0;
    while pos < |input|
      invariant 0 <= pos <= |input|
      invariant out + Escape(input[pos..]) == Escape(input)
    {
      assert input[pos..][1..] == input[pos + 1..];
      out := out + EscapeChar(input[pos]);
      pos := pos + 1;
    }
  }

  /** unescape_chars: the cursor also moves inside an escape, up to three octal digits ahead. */
  method UnescapeChars(input: string) returns (out: string)
    ensures out == Unescape(input)
  {
    hide DecodeHead;
    out := "";
    var pos := 0;
    while pos < |input|
      invariant 0 <= pos <= |input|
      invariant out + Unescape(input[pos..]) == Unescape(input)
    {
      var text, used := DecodeAt(input, pos);
      assert input[pos..][used..] == input[pos + used..];
      out := out + text;
      pos := pos + used;
    }
  }

  /** The body of that loop. */
  method DecodeAt(input: string, pos: nat) returns (text: string, used: nat)
    requires pos < |input|
    ensures Decoded(text, used) == DecodeHead(input[pos..])
  {
    if input[pos] != '\\' {
      return [input[pos]], 1;
    }
    if pos + 1 < |input| && LetterMeaning(input[pos + 1]).Some? {
      return [LetterMeaning(input[pos + 1]).value], 2;
    }
    var digits := ReadOctal(input, pos + 1);
    assert input[pos..][1..] == input[pos + 1..];
    assert input[pos..][1..1 + |digits|] == digits;
    text, used := OctalMeaning(digits), 1 + |digits|;
  }

  /** The inner loop of unescape_chars: at most three octal digits from `start` on. */
  method ReadOctal(input: string, start: nat) returns (digits: string)
    requires start <= |input|
    ensures |digits| == OctalRun(input[start..], 3)
    ensures digits == input[start..start + |digits|]
  {
    var i := 0;
    while i < 3 && start + i < |input| && OctalDigit(input[start + i])
      invariant 0 <= i <= 3 && start + i <= |input|
      invariant OctalRun(input[start..], 3) == i + OctalRun(input[start + i..], 3 - i)
    {
      assert input[start + i..][1..] == input[start + i + 1..];
      i := i + 1;
    }
    digits := input[start..start + i];
  }

  // ------------------------------------------------------- lines of the file

  predicate QuoteFree(s: string) {
    '\"' !in s
  }

  /** What "%[^\"]" consumes: everything up to the first double quote. */
  function Run(s: string): (r: string)
    ensures |r| <= |s|
  {
    if s == [] || s[0] == '\"' then [] else [s[0]] + Run(s[1..])
  }

  predicate IsSpace(c: char) {
    c == ' ' || 9 <= c as int <= 13
  }

  function SkipSpace(s: string): string {
    if s != [] && IsSpace(s[0]) then SkipSpace(s[1..]) else s
  }

  function WriteLine(a: Attr): string
    requires CString(a.key) && CString(a.val)
  {
    "\"" + Escape(a.key) + "\"=\"" + Escape(a.val) + "\""
  }

  /** The part of the line after the key: the value field, or nothing when the format does not match. */
  function ScanValue(afterKey: string): string {
    if afterKey == [] then []
    else
      var eq := SkipSpace(afterKey[1..]);
      if eq == [] || eq[0] != '=' then []
      else
        var open := SkipSpace(eq[1..]);
        if open == [] || open[0] != '\"' then [] else Run(open[1..])
  }

  /** Both sscanf attempts: a key is all the second one needs, its value is then empty. */
  function ScanLine(line: string): Option<Attr> {
    if line == [] || line[0] != '\"' then None
    else
      var key := Run(line[1..]);
      if key == [] then None
      else Some(Attr(key, ScanValue(line[1 + |key|..])))
  }

  /** One line as account_load_attrs reads it; comments, short and malformed lines give nothing. */
  function ReadLine(line: string): Option<Attr> {
    if line == [] || line[0] == '#' || |line| < 6 then None
    else
      match ScanLine(line)
      case None => None
      case Some(a) => Some(Attr(Unescape(a.key), Unescape(a.val)))
  }

  /** What survives of a string with a double quote in it: the part before, and the backslash
      that was meant to escape the quote. */
  function Cut(s: string): string {
    if s == [] then [] else if s[0] == '\"' then "\\" else [s[0]] + Cut(s[1..])
  }

  lemma {:induction false} CutIsQuoteFree(s: string)
    ensures QuoteFree(Cut(s)) && (CString(s) ==> CString(Cut(s)))
    ensures Cut(s) == s <==> QuoteFree(s)
  {
    if s != [] && s[0] != '\"' {
      CutIsQuoteFree(s[1..]);
      assert s == [s[0]] + s[1..];
    }
  }

  lemma {:induction false} RunPrefix(e: string, rest: string)
    requires QuoteFree(e)
    ensures Run(e + rest) == e + Run(rest)
  {
    if e == [] {
      assert e + rest == rest;
    } else {
      assert (e + rest)[1..] == e[1..] + rest;
      RunPrefix(e[1..], rest);
    }
  }

  lemma EscapeCharQuotes(c: char)
    requires IsByte(c)
    ensures c != '\"' ==> QuoteFree(EscapeChar(c))
    ensures |EscapeChar(c)| > 0
  {
  }

  /** Scanning an escaped field up to a closing quote yields the field, cut at its first quote. */
  lemma {:induction false} RunOfEscaped(s: string, rest: string)
    requires CString(s)
    ensures Unescape(Run(Escape(s) + "\"" + rest)) == Cut(s)
    ensures QuoteFree(s) ==> Run(Escape(s) + "\"" + rest) == Escape(s)
    ensures s != [] ==> Run(Escape(s) + "\"" + rest) != []
    decreases |s|, 1
  {
    var all := Escape(s) + "\"" + rest;
    if s == [] {
      assert Run(all) == [];
    } else if s[0] == '\"' {
      assert Run(all[1..]) == [];
      assert Run(all) == "\\";
      assert OctalRun("\\"[1..], 3) == 0;
    } else {
      RunOfEscapedStep(s, rest);
    }
  }

  lemma {:induction false} RunOfEscapedStep(s: string, rest: string)
    requires CString(s) && s != [] && s[0] != '\"'
    ensures Unescape(Run(Escape(s) + "\"" + rest)) == Cut(s)
    ensures QuoteFree(s) ==> Run(Escape(s) + "\"" + rest) == Escape(s)
    ensures Run(Escape(s) + "\"" + rest) != []
    decreases |s|, 0
  {
    hide EscapeChar, DecodeHead;
    var e, t := EscapeChar(s[0]), Escape(s[1..]) + "\"" + rest;
    assert Escape(s) + "\"" + rest == e + t;
    EscapeCharQuotes(s[0]);
    RunPrefix(e, t);
    DecodeEscaped(s[0], Run(t));
    assert (e + Run(t))[|e|..] == Run(t);
    RunOfEscaped(s[1..], rest);
    assert s == [s[0]] + s[1..];
  }

  /** Pairs that survive the file format. */
  predicate FileSafe(a: Attr) {
    a.key != [] && QuoteFree(a.key) && QuoteFree(a.val)
  }

  /** A written pair reads back exactly when it is file-safe; what reads back otherwise is known. */
  lemma ReadWritten(a: Attr)
    requires CString(a.key) && CString(a.val)
    ensures ReadLine(WriteLine(a)) == None <==> a.key == []
    ensures a.key != [] ==> ReadLine(WriteLine(a)).value.key == Cut(a.key)
    ensures a.key != [] && QuoteFree(a.key) ==> ReadLine(WriteLine(a)).value.val == Cut(a.val)
  {
    hide DecodeHead, EscapeChar;
    var line := WriteLine(a);
    var afterOpen := Escape(a.key) + "\"" + ("=\"" + Escape(a.val) + "\"");
    assert line[1..] == afterOpen;
    RunOfEscaped(a.key, "=\"" + Escape(a.val) + "\"");
    if a.key == [] {
      assert Run(afterOpen) == [];
    } else if QuoteFree(a.key) {
      ScanClosedKey(a);
    }
    EscapeNonempty(a.key);
  }

  lemma EscapeNonempty(s: string)
    requires CString(s)
    ensures |Escape(s)| >= |s|
  {
  }

  lemma ScanClosedKey(a: Attr)
    requires CString(a.key) && CString(a.val) && a.key != [] && QuoteFree(a.key)
    ensures ScanLine(WriteLine(a)).Some?
    ensures Unescape(ScanLine(WriteLine(a)).value.val) == Cut(a.val)
  {
    hide DecodeHead, EscapeChar, Escape, Unescape;
    var line := WriteLine(a);
    assert line[1..] == Escape(a.key) + "\"" + ("=\"" + Escape(a.val) + "\"");
    RunOfEscaped(a.key, "=\"" + Escape(a.val) + "\"");
    var key := Run(line[1..]);
    assert key == Escape(a.key);
    var rest := line[1 + |key|..];
    assert rest == "\"=\"" + Escape(a.val) + "\"";
    assert rest[1..][0] == '=';
    assert SkipSpace(rest[1..]) == rest[1..];
    assert rest[1..][1..][0] == '\"';
    assert SkipSpace(rest[1..][1..]) == rest[1..][1..];
    assert rest[1..][1..][1..] == Escape(a.val) + "\"" + [];
    RunOfEscaped(a.val, []);
    assert ScanValue(rest) == Run(Escape(a.val) + "\"" + []);
  }

  /** The law of the file format: one line reads back to the pair it was written from iff the
      key is not empty and neither part contains a double quote. */
  lemma LineRoundTrip(a: Attr)
    requires CString(a.key) && CString(a.val)
    ensures ReadLine(WriteLine(a)) == Some(a) <==> FileSafe(a)
  {
    ReadWritten(a);
    CutIsQuoteFree(a.key);
    CutIsQuoteFree(a.val);
  }

  // ------------------------------------------------- the skipped-key test

  /** The guard of account_save: strncmp("BNET\\CharacterDefault\\", key, 20) == 0, which looks at
      the first twenty characters only. */
  predicate Skipped(escapedKey: string) {
    "BNET\\CharacterDefaul" <= escapedKey
  }

  /** A leading character other than a backslash comes from the same character of the key. */
  lemma EscapeLeads(s: string, p: string)
    requires CString(s) && p != [] && p[0] != '\\' && p <= Escape(s)
    ensures s != [] && p[1..] <= Escape(s[1..])
  {
    assert Escape(s)[0] == EscapeChar(s[0])[0];
    assert Escape(s)[1..] == Escape(s[1..]);
  }

  lemma BackslashC(s: string)
    requires CString(s)
    ensures !(|Escape(s)| >= 2 && Escape(s)[0] == '\\' && Escape(s)[1] == 'C')
  {
    if s != [] {
      assert |EscapeChar(s[0])| == 1 ==> EscapeChar(s[0])[0] != '\\';
    }
  }

  lemma {:induction false} NoBackslashCInside(s: string, p: string, n: nat)
    requires CString(s)
    requires n + 1 < |p| && p[n] == '\\' && p[n + 1] == 'C'
    requires forall i | 0 <= i < n :: p[i] != '\\'
    ensures !(p <= Escape(s))
  {
    if n == 0 {
      BackslashC(s);
    } else if p <= Escape(s) {
      EscapeLeads(s, p);
      NoBackslashCInside(s[1..], p[1..], n - 1);
    }
  }

  /** The guard looks at the escaped key, in which a backslash is never followed by a 'C', so no
      attribute is ever left out of the file. */
  lemma NothingIsSkipped(key: string)
    requires CString(key)
    ensures !Skipped(Escape(key))
  {
    if Skipped(Escape(key)) {
      NoBackslashCInside(key, "BNET\\CharacterDefaul", 4);
    }
  }

  // ------------------------------------------------------- the whole file

  /** file_get_line from the current position: carriage returns are dropped and a backslash at
      the end of a line joins it to the next one. None at the end of the file. */
  function NextLine(text: string, line: string, prev: char): (r: (Option<string>, string))
    ensures |r.1| <= |text|
    ensures text != [] ==> |r.1| < |text|
  {
    if text == [] then (if line == [] then None else Some(line), [])
    else if text[0] == '\r' then NextLine(text[1..], line, prev)
    else if text[0] == '\n' then
      if line == [] || prev != '\\' then (Some(line), text[1..])
      else NextLine(text[1..], line[..|line| - 1], 0 as char)
    else NextLine(text[1..], line + [text[0]], text[0])
  }

  function Lines(text: string): seq<string>
    decreases |text|
  {
    var (line, rest) := NextLine(text, [], 0 as char);
    if line.None? then [] else [line.value] + Lines(rest)
  }

  method FileGetLine(text: string, start: nat) returns (line: Option<string>, next: nat)
    requires start <= |text|
    ensures start <= next <= |text|
    ensures (line, text[next..]) == NextLine(text[start..], [], 0 as char)
  {
    var buffer, prev := "", 0 as char;
    next := start;
    while next < |text|
      invariant start <= next <= |text|
      invariant NextLine(text[next..], buffer, prev) == NextLine(text[start..], [], 0 as char)
    {
      var c := text[next];
      assert text[next..][1..] == text[next + 1..];
      next := next + 1;
      if c == '\r' {
        continue;
      }
      if c == '\n' {
        if buffer == [] || prev != '\\' {
          return Some(buffer), next;
        }
        buffer, prev := buffer[..|buffer| - 1], 0 as char;
        continue;
      }
      buffer, prev := buffer + [c], c;
    }
    line := if buffer == [] then None else Some(buffer);
  }

  predicate Writable(attrs: seq<Attr>) {
    forall i | 0 <= i < |attrs| :: CString(attrs[i].key) && CString(attrs[i].val)
  }

  /** The loop of account_save: one line per attribute, head of the list first. */
  function SaveText(attrs: seq<Attr>): string
    requires Writable(attrs)
  {
    if attrs == [] then []
    else
      (if Skipped(Escape(attrs[0].key)) then [] else WriteLine(attrs[0]) + "\n") + SaveText(attrs[1..])
  }

  /** The loop of account_load_attrs over the remaining lines. */
  function LoadLines(lines: seq<string>, attrs: seq<Attr>): seq<Attr> {
    if lines == [] then attrs
    else
      match ReadLine(lines[0])
      case None => LoadLines(lines[1..], attrs)
      case Some(a) => LoadLines(lines[1..], Assign(attrs, a.key, Some(a.val)))
  }

  function LoadText(text: string): seq<Attr> {
    LoadLines(Lines(text), [])
  }

  predicate OneLine(s: string) {
    '\r' !in s && '\n' !in s
  }

  lemma {:induction false} NextLineOfPlain(line: string, soFar: string, prev: char, rest: string)
    requires OneLine(line)
    requires soFar + line != [] && (if line == [] then prev else line[|line| - 1]) != '\\'
    ensures NextLine(line + "\n" + rest, soFar, prev) == (Some(soFar + line), rest)
  {
    var text := line + "\n" + rest;
    if line == [] {
      assert text[1..] == rest && soFar + line == soFar;
    } else {
      assert text[1..] == line[1..] + "\n" + rest;
      NextLineOfPlain(line[1..], soFar + [line[0]], line[0], rest);
      assert soFar + [line[0]] + line[1..] == soFar + line;
    }
  }

  lemma {:induction false} EscapeIsPrintable(s: string)
    requires CString(s)
    ensures forall c | c in Escape(s) :: Printable(c)
  {
    if s != [] {
      assert forall c | c in EscapeChar(s[0]) :: Printable(c);
      EscapeIsPrintable(s[1..]);
    }
  }

  /** The line a pair is written on, as the reader sees it. */
  function WrittenLines(attrs: seq<Attr>): (lines: seq<string>)
    requires Writable(attrs)
    ensures |lines| == |attrs|
  {
    if attrs == [] then [] else [WriteLine(attrs[0])] + WrittenLines(attrs[1..])
  }

  lemma {:induction false} LinesOfSaved(attrs: seq<Attr>)
    requires Writable(attrs)
    ensures Lines(SaveText(attrs)) == WrittenLines(attrs)
  {
    hide Escape, Skipped;
    if attrs != [] {
      var line, rest := WriteLine(attrs[0]), SaveText(attrs[1..]);
      NothingIsSkipped(attrs[0].key);
      EscapeIsPrintable(attrs[0].key);
      EscapeIsPrintable(attrs[0].val);
      assert OneLine(line);
      NextLineOfPlain(line, [], 0 as char, rest);
      assert [] + line == line;
      LinesOfSaved(attrs[1..]);
    }
  }

  /** Applying the pairs in order to a map, later ones winning. */
  ghost function Overlay(m: map<string, string>, attrs: seq<Attr>): map<string, string>
    decreases attrs
  {
    if attrs == [] then m else Overlay(m[Fold(attrs[0].key) := attrs[0].val], attrs[1..])
  }

  lemma {:induction false} LoadIsOverlay(all: seq<Attr>, attrs: seq<Attr>)
    requires Writable(all) && Distinct(attrs)
    requires forall a | a in all :: FileSafe(a)
    ensures Distinct(LoadLines(WrittenLines(all), attrs))
    ensures MapOf(LoadLines(WrittenLines(all), attrs)) == Overlay(MapOf(attrs), all)
  {
    if all != [] {
      LineRoundTrip(all[0]);
      AssignIsUpdate(attrs, all[0].key, Some(all[0].val));
      assert WrittenLines(all)[1..] == WrittenLines(all[1..]);
      LoadIsOverlay(all[1..], Assign(attrs, all[0].key, Some(all[0].val)));
    }
  }

  /** Spaces are the only white space an escaped string starts with. */
  lemma {:induction false} SkipEscapedSpaces(s: string, rest: string) returns (left: string)
    requires CString(s) && (rest == [] || !IsSpace(rest[0]))
    ensures CString(left) && SkipSpace(Escape(s) + rest) == Escape(left) + rest
  {
    if s == [] || s[0] != ' ' {
      left := s;
      assert s == [] ==> Escape(s) + rest == rest;
      assert s != [] ==> !IsSpace(EscapeChar(s[0])[0]);
    } else {
      assert Escape(s) + rest == [' '] + (Escape(s[1..]) + rest);
      left := SkipEscapedSpaces(s[1..], rest);
    }
  }

  /** A key with a quote in it ends early; the scanner then finds no value, or at most the "=" of
      the separator. */
  lemma ValueAfterQuote(restOfKey: string, val: string)
    requires CString(restOfKey) && CString(val)
    ensures ScanValue("\"" + Escape(restOfKey) + "\"=\"" + Escape(val) + "\"") in ["", "="]
  {
    hide Escape, EscapeChar;
    var tail := "\"=\"" + Escape(val) + "\"";
    var text := "\"" + Escape(restOfKey) + "\"=\"" + Escape(val) + "\"";
    assert text[1..] == Escape(restOfKey) + tail;
    var k3 := SkipEscapedSpaces(restOfKey, tail);
    var eq := SkipSpace(text[1..]);
    if eq[0] == '=' {
      EscapeHead(k3, tail);
      assert eq[1..] == Escape(k3[1..]) + tail;
      var k5 := SkipEscapedSpaces(k3[1..], tail);
      EscapeHead(k5, tail);
      var open := SkipSpace(eq[1..]);
      if open[0] == '\"' {
        assert open == tail;
        assert Run(open[1..]) == "=" by {
          assert open[1..][0] == '=' && open[1..][1] == '\"';
          assert Run(open[1..][1..]) == [];
        }
      }
    }
  }

  /** The first character of an escaped string followed by a closing quote. */
  lemma EscapeHead(s: string, rest: string)
    requires CString(s) && rest != [] && rest[0] == '\"'
    ensures (Escape(s) + rest)[0] == '=' ==> s != [] && (Escape(s) + rest)[1..] == Escape(s[1..]) + rest
    ensures (Escape(s) + rest)[0] == '\"' ==> s == [] && Escape(s) + rest == rest
  {
  }

  lemma {:induction false} SplitAtQuote(s: string) returns (head: string, tail: string)
    requires CString(s) && !QuoteFree(s)
    ensures CString(tail) && QuoteFree(head)
    ensures Escape(s) == head + "\\\"" + Escape(tail)
  {
    if s[0] == '\"' {
      head, tail := "", s[1..];
    } else {
      EscapeCharQuotes(s[0]);
      var h, t := SplitAtQuote(s[1..]);
      head, tail := EscapeChar(s[0]) + h, t;
    }
  }

  /** Whatever was written, the pair that is read back is file-safe. */
  lemma ReadIsFileSafe(a: Attr)
    requires CString(a.key) && CString(a.val)
    ensures var b := ReadLine(WriteLine(a));
            b.Some? ==> FileSafe(b.value) && CString(b.value.key) && CString(b.value.val)
  {
    hide DecodeHead, EscapeChar;
    ReadWritten(a);
    CutIsQuoteFree(a.key);
    CutIsQuoteFree(a.val);
    CutNonempty(a.key);
    if !QuoteFree(a.key) {
      var head, tail := SplitAtQuote(a.key);
      ScanOpenKey(a, head, tail);
      UnescapeInvertsEscape("=");
      EscapedEquals();
    }
  }

  lemma CutNonempty(s: string)
    ensures s != [] ==> Cut(s) != []
  {
  }

  lemma EscapedEquals()
    ensures Escape("=") == "="
  {
  }

  lemma ScanOpenKey(a: Attr, head: string, tail: string)
    requires CString(a.key) && CString(a.val) && CString(tail) && QuoteFree(head)
    requires Escape(a.key) == head + "\\\"" + Escape(tail)
    ensures ScanLine(WriteLine(a)).Some? && ScanLine(WriteLine(a)).value.val in ["", "="]
  {
    hide Escape, ScanValue;
    var line := WriteLine(a);
    var afterKey := "\"" + Escape(tail) + "\"=\"" + Escape(a.val) + "\"";
    assert line[1..] == head + "\\" + afterKey;
    RunPrefix(head + "\\", afterKey);
    assert Run(afterKey) == [];
    assert line[1 + |head + "\\"|..] == afterKey;
    ValueAfterQuote(tail, a.val);
  }

  lemma AssignIsWritable(attrs: seq<Attr>, a: Attr)
    requires Writable(attrs) && CString(a.key) && CString(a.val)
    ensures Writable(Assign(attrs, a.key, Some(a.val)))
  {
    hide CString, FirstMatch;
  }

  lemma {:induction false} LoadIsFileSafe(all: seq<Attr>, attrs: seq<Attr>)
    requires Writable(all) && Writable(attrs) && forall a | a in attrs :: FileSafe(a)
    ensures Writable(LoadLines(WrittenLines(all), attrs))
    ensures forall a | a in LoadLines(WrittenLines(all), attrs) :: FileSafe(a)
  {
    hide ReadLine, WriteLine;
    if all != [] {
      ReadIsFileSafe(all[0]);
      assert WrittenLines(all)[1..] == WrittenLines(all[1..]);
      match ReadLine(WriteLine(all[0])) {
        case None => LoadIsFileSafe(all[1..], attrs);
        case Some(b) =>
          AssignIsWritable(attrs, b);
          LoadIsFileSafe(all[1..], Assign(attrs, b.key, Some(b.val)));
      }
    }
  }

  lemma {:induction false} OverlayOfDistinct(m: map<string, string>, attrs: seq<Attr>)
    requires Distinct(attrs)
    ensures Overlay(m, attrs) == m + MapOf(attrs)
    decreases attrs
  {
    hide Fold;
    if attrs != [] {
      var k, v := Fold(attrs[0].key), attrs[0].val;
      AbsentKey(attrs[1..], k);
      OverlayOfDistinct(m[k := v], attrs[1..]);
      assert m[k := v] + MapOf(attrs[1..]) == m + MapOf(attrs[1..])[k := v];
    }
  }

  /** The file law: saving a list and loading it again gives the same map iff every pair is
      file-safe, and then keys are distinct again. */
  lemma ReloadLaw(attrs: seq<Attr>)
    requires Writable(attrs) && Distinct(attrs)
    ensures MapOf(LoadText(SaveText(attrs))) == MapOf(attrs) <==> forall a | a in attrs :: FileSafe(a)
    ensures Writable(LoadText(SaveText(attrs))) && forall a | a in LoadText(SaveText(attrs)) :: FileSafe(a)
  {
    hide Fold, FileSafe, Distinct, ReadLine, WriteLine, Escape, Skipped, CString;
    LinesOfSaved(attrs);
    assert Distinct([]) by { DistinctNone(); }
    LoadIsFileSafe(attrs, []);
    var loaded := LoadText(SaveText(attrs));
    if forall a | a in attrs :: FileSafe(a) {
      LoadIsOverlay(attrs, []);
      OverlayOfDistinct(map[], attrs);
    } else if MapOf(loaded) == MapOf(attrs) {
      forall a | a in attrs
        ensures FileSafe(a)
      {
        SurvivorIsSafe(attrs, loaded, a);
      }
    }
  }

  lemma DistinctNone()
    ensures Distinct([])
  {
  }

  lemma SurvivorIsSafe(attrs: seq<Attr>, loaded: seq<Attr>, a: Attr)
    requires Distinct(attrs) && MapOf(loaded) == MapOf(attrs)
    requires a in attrs && forall b | b in loaded :: FileSafe(b)
    ensures FileSafe(a)
  {
    LookupIsMap(attrs, a.key);
    assert attrs[FirstMatch(attrs, a.key)] == a;
    LookupIsMap(loaded, a.key);
    var b := loaded[FirstMatch(loaded, a.key)];
    assert b in loaded && b.val == a.val && Fold(b.key) == Fold(a.key);
    FoldQuotes(a.key, b.key);
  }

  lemma FoldQuotes(s: string, t: string)
    requires Fold(s) == Fold(t) && QuoteFree(t)
    ensures QuoteFree(s) && |s| == |t|
  {
    forall i | 0 <= i < |s|
      ensures s[i] != '\"'
    {
      assert Fold(s)[i] == Fold(t)[i];
    }
  }
}
