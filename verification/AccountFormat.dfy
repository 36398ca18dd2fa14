/** The account file character by character and line by line. */
module AccountFormat {
  import opened Text
  import opened Attributes
  import opened AttributeFile

  // -------------------------------------------------------------- characters

  ghost predicate Octal(s: string) {
    forall i | 0 <= i < |s| :: '0' <= s[i] <= '7'
  }

  ghost function OctalAt(s: string, i: nat): int
    requires i < |s|
  {
    s[i] as int - '0' as int
  }

  /** What a character is written as: with a backslash in front if it is a quote or a backslash, as itself if it is
      printable, by its letter if it is one of the seven control characters from bell on, else in octal. */
  ghost predicate WrittenAs(c: char, e: string) {
    if c == '\"' || c == '\\' then e == ['\\', c]
    else if 32 <= c as int <= 126 then e == [c]
    else if 7 <= c as int <= 13 then e == ['\\', "abtnvfr"[c as int - 7]]
    else
      && |e| == 4 && e[0] == '\\' && Octal(e[1..])
      && c as int == 64 * OctalAt(e, 1) + 8 * OctalAt(e, 2) + OctalAt(e, 3)
  }

  lemma EscapeLaw(c: char, rest: string) returns (e: string)
    requires IsByte(c) && CString(rest)
    ensures Escape("") == ""
    ensures WrittenAs(c, e) && CString([c] + rest) && Escape([c] + rest) == e + Escape(rest)
  {
    e := EscapeChar(c);
    assert ([c] + rest)[1..] == rest;
    hide Escape;
    if |e| == 4 {
      assert e[1..] == [Digit(c as int / 64), Digit(c as int / 8 % 8), Digit(c as int % 8)];
    }
  }

  /** What the first `used` characters of a text are read as. After a backslash come a quote, a backslash, a letter
      for a control character, or up to three octal digits; three that denote a byte are that byte, and all others
      stay as they are, like a backslash on its own. */
  ghost predicate ReadAs(s: string, used: nat, read: string)
    requires s != ""
  {
    if s[0] != '\\' then used == 1 && read == [s[0]]
    else if |s| > 1 && (s[1] == '\\' || s[1] == '\"') then used == 2 && read == [s[1]]
    else if |s| > 1 && s[1] in "abtnvfr" then
      used == 2 && |read| == 1 && 7 <= read[0] as int <= 13 && s[1] == "abtnvfr"[read[0] as int - 7]
    else
      && 1 <= used <= 4 && used <= |s| && Octal(s[1..used])
      && (used < 4 && used < |s| ==> !('0' <= s[used] <= '7'))
      && var v := if used == 4 then 64 * OctalAt(s, 1) + 8 * OctalAt(s, 2) + OctalAt(s, 3) else 0;
         if 1 <= v <= 255 then |read| == 1 && read[0] as int == v else read == s[..used]
  }

  /** A text is read item by item. */
  lemma UnescapeLaw(s: string) returns (used: nat, read: string)
    requires s != ""
    ensures Unescape("") == ""
    ensures ReadAs(s, used, read) && used <= |s| && Unescape(s) == read + Unescape(s[used..])
  {
    used, read := DecodeHead(s).used, DecodeHead(s).text;
    assert Unescape("") == "";
    hide Unescape;
    if s[0] == '\\' && !(|s| >= 2 && LetterMeaning(s[1]).Some?) {
      var n := OctalRun(s[1..], 3);
      assert s[1..1 + n] == s[1..][..n];
      if n == 3 {
        OctalValue3(s[1..4]);
      }
      assert ['\\'] + s[1..1 + n] == s[..1 + n];
    }
  }

  // ------------------------------------------------------------------- lines

  ghost predicate Blank(s: string) {
    forall i | 0 <= i < |s| :: s[i] == ' ' || 9 <= s[i] as int <= 13
  }

  ghost predicate NoQuote(s: string) {
    forall i | 0 <= i < |s| :: s[i] != '\"'
  }

  lemma {:induction false} RunIs(s: string, rest: string)
    requires NoQuote(s) && (rest == "" || rest[0] == '\"')
    ensures Run(s + rest) == s
  {
    if s == "" {
      assert s + rest == rest;
    } else {
      assert (s + rest)[1..] == s[1..] + rest;
      RunIs(s[1..], rest);
    }
  }

  lemma {:induction false} SkipIs(s: string, rest: string)
    requires Blank(s) && rest != "" && rest[0] != ' ' && !(9 <= rest[0] as int <= 13)
    ensures SkipSpace(s + rest) == rest
  {
    if s == "" {
      assert s + rest == rest;
    } else {
      assert (s + rest)[1..] == s[1..] + rest;
      SkipIs(s[1..], rest);
    }
  }

  /** A key and a value, blanks around the sign or not, the value closed or not, and anything after it. */
  ghost predicate PairLine(line: string, key: string, before: string, after: string, val: string, rest: string) {
    && key != "" && NoQuote(key) && Blank(before) && Blank(after) && NoQuote(val) && (rest == "" || rest[0] == '\"')
    && line == "\"" + (key + ValueTail(before, after, val, rest))
  }

  ghost function ValueTail(before: string, after: string, val: string, rest: string): string {
    "\"" + (before + ("=" + (after + ("\"" + (val + rest)))))
  }

  /** Such a line is read as that pair, if it has six characters or more. */
  lemma PairLaw(line: string, key: string, before: string, after: string, val: string, rest: string)
    requires PairLine(line, key, before, after, val, rest) && |line| >= 6
    ensures ReadLine(line) == Some(Attr(Unescape(key), Unescape(val)))
  {
    ValueIs(before, after, val, rest);
    var tail := ValueTail(before, after, val, rest);
    assert tail[0] == '\"';
    hide Unescape, ScanValue, ValueTail, Blank, NoQuote;
    assert line[1..] == key + tail;
    RunIs(key, tail);
    assert line[1 + |key|..] == tail;
    hide Run;
  }

  lemma ValueIs(before: string, after: string, val: string, rest: string)
    requires Blank(before) && Blank(after) && NoQuote(val) && (rest == "" || rest[0] == '\"')
    ensures ScanValue(ValueTail(before, after, val, rest)) == val
  {
    hide Blank, NoQuote;
    var open := "\"" + (val + rest);
    var eq := "=" + (after + open);
    var tail := ValueTail(before, after, val, rest);
    assert tail[1..] == before + eq;
    SkipIs(before, eq);
    assert eq[1..] == after + open;
    SkipIs(after, open);
    assert open[1..] == val + rest;
    RunIs(val, rest);
    hide Run, SkipSpace;
  }

  lemma {:induction false} SkipSplits(s: string) returns (blanks: string)
    ensures Blank(blanks) && s == blanks + SkipSpace(s)
  {
    if s != [] && IsSpace(s[0]) {
      var b := SkipSplits(s[1..]);
      blanks := [s[0]] + b;
      assert s == [s[0]] + s[1..];
    } else {
      blanks := "";
    }
  }

  lemma {:induction false} RunSplits(s: string) returns (rest: string)
    ensures NoQuote(Run(s)) && s == Run(s) + rest && (rest == "" || rest[0] == '\"')
  {
    if s == [] || s[0] == '\"' {
      rest := s;
    } else {
      rest := RunSplits(s[1..]);
      assert s == [s[0]] + s[1..];
    }
  }

  lemma ValueParts(tail: string) returns (before: string, after: string, val: string, rest: string)
    requires ScanValue(tail) != "" && tail[0] == '\"'
    ensures Blank(before) && Blank(after) && NoQuote(val) && (rest == "" || rest[0] == '\"')
    ensures tail == ValueTail(before, after, val, rest)
  {
    hide Blank, NoQuote;
    before := SkipSplits(tail[1..]);
    var eq := SkipSpace(tail[1..]);
    after := SkipSplits(eq[1..]);
    var open := SkipSpace(eq[1..]);
    val := Run(open[1..]);
    rest := RunSplits(open[1..]);
    hide SkipSpace, Run;
    assert open == "\"" + (val + rest);
    assert eq == "=" + (after + open);
    assert tail == "\"" + (before + eq);
  }

  /** Of a line that is read at all, the key is what comes before the second quote. */
  ghost predicate KeyLine(line: string, key: string, tail: string) {
    line == "\"" + (key + tail) && key != "" && NoQuote(key) && (tail == "" || tail[0] == '\"')
  }

  lemma KeyParts(line: string) returns (key: string, tail: string)
    requires ReadLine(line).Some?
    ensures KeyLine(line, key, tail)
    ensures ReadLine(line).value == Attr(Unescape(key), Unescape(ScanValue(tail)))
  {
    hide Unescape, ScanValue;
    key := Run(line[1..]);
    tail := RunSplits(line[1..]);
    assert line == "\"" + line[1..];
    assert line[1 + |key|..] == tail;
  }

  /** Exactly those lines are read that have six characters or more and begin with a quote and a key that is not
      empty; they have no value unless they are of the form above. */
  lemma LineLaw(line: string)
      returns (key: string, tail: string, before: string, after: string, val: string, rest: string)
    ensures ReadLine(line).None? <==> |line| < 6 || line[0] != '\"' || line[1] == '\"'
    ensures ReadLine(line).Some? ==>
              && KeyLine(line, key, tail) && ReadLine(line).value.key == Unescape(key)
              && (ReadLine(line).value.val == "" || PairLine(line, key, before, after, val, rest))
  {
    key, tail, before, after, val, rest := "", "", "", "", "", "";
    RunFirst(line);
    if ReadLine(line).Some? {
      key, tail := KeyParts(line);
      hide ReadLine;
      if ScanValue(tail) != "" {
        before, after, val, rest := ValueParts(tail);
      } else {
        assert Unescape("") == "";
      }
    }
    hide Unescape, ScanValue, Blank, NoQuote, ValueTail;
  }

  lemma RunFirst(line: string)
    ensures |line| > 1 ==> (Run(line[1..]) == "" <==> line[1] == '\"')
  {
  }

  // ------------------------------------------------------------- the whole file

  lemma {:induction false} NextLineOn(part: string, rest: string, line: string, prev: char)
    requires OneLine(part)
    ensures NextLine(part + rest, line, prev) ==
            NextLine(rest, line + part, if part == "" then prev else part[|part| - 1])
  {
    if part == "" {
      assert part + rest == rest && line + part == line;
    } else {
      assert (part + rest)[1..] == part[1..] + rest;
      NextLineOn(part[1..], rest, line + [part[0]], part[0]);
      assert line + [part[0]] + part[1..] == line + part;
    }
  }

  lemma {:induction false} NoBackslashBefore(text: string, line: string, p: char, q: char)
    requires p != '\\' && q != '\\'
    ensures NextLine(text, line, p) == NextLine(text, line, q)
  {
    if text != "" && text[0] == '\r' {
      NoBackslashBefore(text[1..], line, p, q);
    }
  }

  /** A text is read line by line, and the last line may go without a newline. */
  lemma LinesLaw(line: string, rest: string)
    requires OneLine(line) && (line == "" || line[|line| - 1] != '\\')
    ensures Lines("") == []
    ensures Lines(line + "\n" + rest) == [line] + Lines(rest)
    ensures line != "" ==> Lines(line) == [line]
  {
    NextLineOn(line, "\n" + rest, "", 0 as char);
    assert line + ("\n" + rest) == line + "\n" + rest && "" + line == line && ("\n" + rest)[1..] == rest;
    NextLineOn(line, "", "", 0 as char);
    assert line + "" == line;
    assert Lines("") == [];
  }

  /** A backslash at the end of a line joins it to the next. */
  lemma JoinLaw(line: string, rest: string)
    requires OneLine(line) && (line == "" || line[|line| - 1] != '\\')
    ensures Lines(line + "\\\n" + rest) == Lines(line + rest)
  {
    var joined := line + "\\";
    NextLineOn(joined, "\n" + rest, "", 0 as char);
    assert joined + ("\n" + rest) == line + "\\\n" + rest && "" + joined == joined && ("\n" + rest)[1..] == rest;
    assert joined[..|joined| - 1] == line;
    NextLineOn(line, rest, "", 0 as char);
    assert "" + line == line;
    NoBackslashBefore(rest, line, 0 as char, if line == "" then 0 as char else line[|line| - 1]);
  }

  lemma {:induction false} NextLineDrops(a: string, b: string, line: string, prev: char) returns (left: Option<string>)
    ensures var (x, with), (y, without) := NextLine(a + "\r" + b, line, prev), NextLine(a + b, line, prev);
            && x == y
            && match left
               case None => with == without
               case Some(c) => |c| <= |a| && (a != "" ==> |c| < |a|) && with == c + "\r" + b && without == c + b
  {
    var text := a + "\r" + b;
    if a == "" {
      assert text[1..] == b && a + b == b;
      left := None;
    } else {
      assert text[1..] == a[1..] + "\r" + b && (a + b)[1..] == a[1..] + b;
      if a[0] == '\r' {
        left := NextLineDrops(a[1..], b, line, prev);
      } else if a[0] != '\n' {
        left := NextLineDrops(a[1..], b, line + [a[0]], a[0]);
      } else if line == "" || prev != '\\' {
        left := Some(a[1..]);
      } else {
        left := NextLineDrops(a[1..], b, line[..|line| - 1], 0 as char);
      }
    }
  }

  /** Carriage returns do not count, wherever they are. */
  lemma {:induction false} ReturnsLaw(a: string, b: string)
    ensures Lines(a + "\r" + b) == Lines(a + b)
    decreases |a|
  {
    hide NextLine;
    var left := NextLineDrops(a, b, "", 0 as char);
    if left.Some? && a != "" {
      ReturnsLaw(left.value, b);
    }
  }

  /** A saved list has one line for each attribute, in list order: the key and the value in quotes. */
  lemma {:induction false} SavedLaw(attrs: seq<Attr>)
    requires Writable(attrs)
    ensures |Lines(SaveText(attrs))| == |attrs|
    ensures forall i | 0 <= i < |attrs| ::
              Lines(SaveText(attrs))[i] == "\"" + Escape(attrs[i].key) + "\"=\"" + Escape(attrs[i].val) + "\""
  {
    hide Lines, SaveText, Escape;
    LinesOfSaved(attrs);
    if attrs != [] {
      LinesOfSaved(attrs[1..]);
      SavedLaw(attrs[1..]);
      assert forall i | 0 < i < |attrs| :: WrittenLines(attrs)[i] == WrittenLines(attrs[1..])[i - 1];
    }
  }
}
