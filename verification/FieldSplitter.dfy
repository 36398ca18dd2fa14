/** The field splitter behind the parsing of game information: an in-place tokenizer that, unlike strtok,
    hands out empty fields (blank_strtok and game_parse_info in src/bnetd/game_conv.c). */
module FieldSplitter {
  import opened Text

  // ------------------------------------------------------------------ splitting as a function

  /** The place of the first delimiter in `t`, or its length. */
  function FirstDelim(t: string, delim: string): (k: nat)
    ensures k <= |t| && (k < |t| ==> t[k] in delim)
    ensures forall j | 0 <= j < k :: t[j] !in delim
  {
    if t == [] || t[0] in delim then 0 else 1 + FirstDelim(t[1..], delim)
  }

  function Split(t: string, delim: string): (fields: seq<string>)
    ensures fields != []
  {
    var k := FirstDelim(t, delim);
    if k == |t| then [t] else [t[..k]] + Split(t[k + 1..], delim)
  }

  function Join(fields: seq<string>, d: char): string
    requires fields != []
  {
    if |fields| == 1 then fields[0] else fields[0] + [d] + Join(fields[1..], d)
  }

  function Count(t: string, delim: string): nat {
    if t == [] then 0 else (if t[0] in delim then 1 else 0) + Count(t[1..], delim)
  }

  ghost predicate Clean(fields: seq<string>, delim: string) {
    forall i, j | 0 <= i < |fields| && 0 <= j < |fields[i]| :: fields[i][j] !in delim
  }

  lemma FirstDelimIs(t: string, k: nat, delim: string)
    requires k <= |t| && (k < |t| ==> t[k] in delim) && forall j | 0 <= j < k :: t[j] !in delim
    ensures FirstDelim(t, delim) == k
  {
  }

  /** Joining the fields gives back the text. */
  lemma {:induction false} JoinSplit(t: string, d: char)
    ensures Join(Split(t, [d]), d) == t
  {
    var k := FirstDelim(t, [d]);
    if k < |t| {
      JoinSplit(t[k + 1..], d);
      assert Split(t, [d])[1..] == Split(t[k + 1..], [d]);
      assert t == t[..k] + [d] + t[k + 1..];
    }
  }

  /** And no other list of fields without delimiters does. */
  lemma {:induction false} SplitJoin(fields: seq<string>, d: char)
    requires fields != [] && Clean(fields, [d])
    ensures Split(Join(fields, d), [d]) == fields
  {
    var t := Join(fields, d);
    var k := |fields[0]|;
    assert forall j | 0 <= j < k :: fields[0][j] !in [d];
    FirstDelimIs(t, k, [d]);
    if |fields| > 1 {
      assert t[..k] == fields[0] && t[k + 1..] == Join(fields[1..], d);
      SplitJoin(fields[1..], d);
      assert [fields[0]] + fields[1..] == fields;
    }
  }

  lemma {:induction false} SplitCounts(t: string, delim: string)
    ensures |Split(t, delim)| == Count(t, delim) + 1
    ensures Clean(Split(t, delim), delim)
  {
    var k := FirstDelim(t, delim);
    CountSkips(t, k, delim);
    if k < |t| {
      SplitCounts(t[k + 1..], delim);
      assert t[k..][1..] == t[k + 1..];
    }
  }

  lemma {:induction false} CountSkips(t: string, k: nat, delim: string)
    requires k <= |t| && forall j | 0 <= j < k :: t[j] !in delim
    ensures Count(t, delim) == Count(t[k..], delim)
  {
    if k == 0 {
      assert t[0..] == t;
    } else {
      CountSkips(t[1..], k - 1, delim);
      assert t[1..][k - 1..] == t[k..];
    }
  }

  // ------------------------------------------------------------------ strings in a buffer

  /** The place of the first terminator from `i` on, or the length of the buffer. */
  function End(b: seq<char>, i: nat): (e: nat)
    requires i <= |b|
    ensures i <= e <= |b| && (e < |b| ==> b[e] == '\0')
    ensures forall k | i <= k < e :: b[k] != '\0'
    decreases |b| - i
  {
    if i == |b| || b[i] == '\0' then i else End(b, i + 1)
  }

  /** There is a terminator before the end of the buffer. */
  predicate Terminated(b: seq<char>, i: nat) {
    i <= |b| && End(b, i) < |b|
  }

  /** The C string that starts at place `i` of a buffer. */
  function TextAt(b: seq<char>, i: nat): string
    requires Terminated(b, i)
  {
    b[i..End(b, i)]
  }

  lemma EndIs(b: seq<char>, i: nat, e: nat)
    requires i <= e < |b| && b[e] == '\0' && forall k | i <= k < e :: b[k] != '\0'
    ensures End(b, i) == e
  {
  }

  /** A string does not notice what is written behind its terminator. */
  lemma TextAtSame(b: seq<char>, c: seq<char>, i: nat)
    requires Terminated(b, i) && |c| == |b|
    requires forall k | i <= k <= End(b, i) :: c[k] == b[k]
    ensures Terminated(c, i) && TextAt(c, i) == TextAt(b, i) && End(c, i) == End(b, i)
  {
    EndIs(c, i, End(b, i));
  }

  lemma TextAtTail(b: seq<char>, i: nat, k: nat)
    requires Terminated(b, i) && i + k <= End(b, i)
    ensures Terminated(b, i + k) && TextAt(b, i + k) == TextAt(b, i)[k..] && End(b, i + k) == End(b, i)
  {
    EndIs(b, i + k, End(b, i));
  }

  // ------------------------------------------------------------------ the tokenizer

  datatype Ptr = Null | At(buf: array<char>, pos: nat)

  /** The first of the delimiters in the string at `s`. */
  method StrPBrk(buf: array<char>, s: nat, delim: string) returns (p: Option<nat>)
    requires Terminated(buf[..], s)
    ensures
      var t := TextAt(buf[..], s);
      p == if FirstDelim(t, delim) < |t| then Some(s + FirstDelim(t, delim)) else None
  {
    hide End, FirstDelim;
    ghost var t := TextAt(buf[..], s);
    var i := s;
    while buf[i] != '\0'
      invariant s <= i <= End(buf[..], s)
      invariant forall j | 0 <= j < i - s :: t[j] !in delim
      decreases buf.Length - i
    {
      assert t[i - s] == buf[i];
      if buf[i] in delim {
        FirstDelimIs(t, i - s, delim);
        return Some(i);
      }
      i := i + 1;
    }
    FirstDelimIs(t, |t|, delim);
    return None;
  }

  /** How many characters from `s` on are delimiters. */
  method StrSpn(buf: array<char>, s: nat, delim: string) returns (n: nat)
    requires Terminated(buf[..], s) && '\0' !in delim
    ensures n == SkipDelims(TextAt(buf[..], s), delim)
  {
    hide End, SkipDelims;
    ghost var t := TextAt(buf[..], s);
    n := 0;
    while buf[s + n] in delim
      invariant 0 <= n <= |t| && s + n < buf.Length
      invariant forall j | 0 <= j < n :: t[j] in delim
      decreases |t| - n
    {
      assert t[n] == buf[s + n];
      n := n + 1;
    }
    SkipDelimsIs(t, n, delim);
  }

  /** The buffer once a token at `pos` has been cut off. */
  function Cut(b: seq<char>, pos: nat, delim: string): seq<char>
    requires Terminated(b, pos)
  {
    var k := FirstDelim(TextAt(b, pos), delim);
    if k < |TextAt(b, pos)| then b[pos + k := '\0'] else b
  }

  class Tokenizer {
    var olds: Ptr

    constructor ()
      ensures olds == Null
    {
      olds := Null;
    }

    /** The token at `s`, or where the last call stopped: its text is the first field of the text that was
        there, an empty one included, and the next call starts behind the delimiter. After the last field
        there is nothing to go on with. */
    method BlankStrtok(s: Ptr, delim: string) returns (token: Ptr)
      requires '\0' !in delim
      requires var start := if s.Null? then olds else s; start.At? ==> Terminated(start.buf[..], start.pos)
      modifies this, if s.At? then {s.buf} else if olds.At? then {olds.buf} else {}
      ensures token == if s.Null? then old(olds) else s
      ensures token.Null? ==> olds == old(olds)
      ensures token.At? ==>
                var was := old(token.buf[..]);
                var t := TextAt(was, token.pos);
                var k := FirstDelim(t, delim);
                && token.buf[..] == Cut(was, token.pos, delim)
                && olds == if k < |t| then At(token.buf, token.pos + k + 1) else Null
    {
      hide End, FirstDelim;
      var start := s;
      if start.Null? {
        if olds.Null? {
          return Null;
        }
        start := olds;
      }
      token := start;
      var p := StrPBrk(token.buf, token.pos, delim);
      match p {
        case None => olds := Null;
        case Some(at) =>
          token.buf[at] := '\0';
          olds := At(token.buf, at + 1);
      }
    }

    /** strtok of the C library: delimiters in front are skipped, so that no token is empty. */
    method Strtok(s: Ptr, delim: string) returns (token: Ptr)
      requires '\0' !in delim
      requires var start := if s.Null? then olds else s; start.At? ==> Terminated(start.buf[..], start.pos)
      modifies this, if s.At? then {s.buf} else if olds.At? then {olds.buf} else {}
      ensures
        var start := if s.Null? then old(olds) else s;
        if start.Null? then token == olds == Null
        else
          var was := old(start.buf[..]);
          var skip := SkipDelims(TextAt(was, start.pos), delim);
          if skip == |TextAt(was, start.pos)| then token == olds == Null && start.buf[..] == was
          else
            && token == At(start.buf, start.pos + skip) && Terminated(was, token.pos)
            && start.buf[..] == Cut(was, token.pos, delim)
            && (var k := FirstDelim(TextAt(was, token.pos), delim);
                olds == if k < |TextAt(was, token.pos)| then At(start.buf, token.pos + k + 1) else Null)
    {
      hide End, FirstDelim, SkipDelims;
      var start := if s.Null? then olds else s;
      if start.Null? {
        olds := Null;
        return Null;
      }
      var skip := StrSpn(start.buf, start.pos, delim);
      TextAtTail(start.buf[..], start.pos, skip);
      if start.buf[start.pos + skip] == '\0' {
        olds := Null;
        return Null;
      }
      token := At(start.buf, start.pos + skip);
      var p := StrPBrk(token.buf, token.pos, delim);
      match p {
        case None => olds := Null;
        case Some(at) =>
          token.buf[at] := '\0';
          olds := At(token.buf, at + 1);
      }
    }
  }

  // ------------------------------------------------------------------ what strtok returns

  function SkipDelims(t: string, delim: string): (k: nat)
    ensures k <= |t| && (k < |t| ==> t[k] !in delim)
    ensures forall j | 0 <= j < k :: t[j] in delim
  {
    if t == [] || t[0] !in delim then 0 else 1 + SkipDelims(t[1..], delim)
  }

  lemma SkipDelimsIs(t: string, k: nat, delim: string)
    requires k <= |t| && (k < |t| ==> t[k] !in delim) && forall j | 0 <= j < k :: t[j] in delim
    ensures SkipDelims(t, delim) == k
  {
  }

  function NonEmpty(fields: seq<string>): seq<string> {
    if fields == [] then [] else (if fields[0] == "" then [] else [fields[0]]) + NonEmpty(fields[1..])
  }

  /** What strtok makes of a text: its fields without the empty ones. */
  function Pieces(t: string, delim: string): seq<string> {
    NonEmpty(Split(t, delim))
  }

  /** Skipping delimiters and cutting at the next one gives the first piece. */
  lemma {:induction false} FirstPiece(t: string, delim: string)
    ensures
      var skip := SkipDelims(t, delim);
      var rest := t[skip..];
      var k := FirstDelim(rest, delim);
      Pieces(t, delim) ==
        if skip == |t| then []
        else [rest[..k]] + if k < |rest| then Pieces(rest[k + 1..], delim) else []
  {
    if t == [] {
      assert Split(t, delim) == [""] && [""][1..] == [];
    } else if t[0] in delim {
      FirstPiece(t[1..], delim);
      var skip := SkipDelims(t[1..], delim);
      assert t[1 + skip..] == t[1..][skip..];
      assert Split(t, delim)[1..] == Split(t[1..], delim);
    } else {
      NoDelimFirst(t, delim);
    }
  }

  lemma NoDelimFirst(t: string, delim: string)
    requires t != [] && t[0] !in delim
    ensures t[SkipDelims(t, delim)..] == t
    ensures
      var k := FirstDelim(t, delim);
      Pieces(t, delim) == [t[..k]] + if k < |t| then Pieces(t[k + 1..], delim) else []
  {
    assert FirstDelim(t, delim) > 0;
    SplitHead(t, delim);
    hide FirstDelim, Split;
    var k, fields := FirstDelim(t, delim), Split(t, delim);
    assert fields[0] != "" && (k == |t| ==> fields[1..] == []);
    assert NonEmpty(fields) == [fields[0]] + NonEmpty(fields[1..]);
  }

  // ------------------------------------------------------------------ one token after the other

  /** In buffer `b` the strings at `tokens` are the `fields`, and all end before `limit`. */
  ghost predicate FieldsAt(b: seq<char>, tokens: seq<nat>, fields: seq<string>, limit: nat) {
    && |tokens| == |fields|
    && forall i | 0 <= i < |tokens| ::
         Terminated(b, tokens[i]) && TextAt(b, tokens[i]) == fields[i] && End(b, tokens[i]) < limit
  }

  lemma CutTexts(b: seq<char>, pos: nat, delim: string)
    requires Terminated(b, pos)
    ensures
      var t := TextAt(b, pos);
      var k := FirstDelim(t, delim);
      var c := Cut(b, pos, delim);
      && Terminated(c, pos) && TextAt(c, pos) == t[..k] && End(c, pos) == pos + k
      && (k < |t| ==> Terminated(c, pos + k + 1) && TextAt(c, pos + k + 1) == t[k + 1..])
  {
    hide End, FirstDelim;
    var t := TextAt(b, pos);
    var k := FirstDelim(t, delim);
    var c := Cut(b, pos, delim);
    var e := End(b, pos);
    assert t == b[pos..e] && e == pos + |t|;
    assert |c| == |b| && forall i | pos <= i < e && i != pos + k :: c[i] == b[i] == t[i - pos];
    EndIs(c, pos, pos + k);
    assert c[pos..pos + k] == t[..k] by {
      assert forall i | 0 <= i < k :: c[pos + i] == t[i];
    }
    if k < |t| {
      EndIs(c, pos + k + 1, e);
      assert c[pos + k + 1..e] == t[k + 1..] by {
        assert forall i | k < i < |t| :: c[pos + i] == t[i];
      }
    }
  }

  lemma CutKeepsFields(b: seq<char>, tokens: seq<nat>, fields: seq<string>, pos: nat, delim: string)
    requires Terminated(b, pos) && FieldsAt(b, tokens, fields, pos)
    ensures FieldsAt(Cut(b, pos, delim), tokens, fields, pos)
  {
    hide End, FirstDelim;
    forall i | 0 <= i < |tokens|
      ensures
        var c := Cut(b, pos, delim);
        Terminated(c, tokens[i]) && TextAt(c, tokens[i]) == fields[i] && End(c, tokens[i]) < pos
    {
      TextAtSame(b, Cut(b, pos, delim), tokens[i]);
    }
  }

  /** One more token: with `n` fields out and the rest still ahead, the next field comes out. */
  lemma OneMoreField(b: seq<char>, tokens: seq<nat>, fields: seq<string>, n: nat, pos: nat, delim: string)
    requires n < |fields| && Terminated(b, pos)
    requires FieldsAt(b, tokens, fields[..n], pos) && Split(TextAt(b, pos), delim) == fields[n..]
    ensures
      var t := TextAt(b, pos);
      var k := FirstDelim(t, delim);
      var c := Cut(b, pos, delim);
      && FieldsAt(c, tokens + [pos], fields[..n + 1], pos + k + 1)
      && (k < |t| <==> n + 1 < |fields|)
      && (k < |t| ==> Terminated(c, pos + k + 1) && Split(TextAt(c, pos + k + 1), delim) == fields[n + 1..])
  {
    hide End, FirstDelim, TextAt, Split, Cut, FieldsAt;
    var t := TextAt(b, pos);
    var k := FirstDelim(t, delim);
    SplitHead(t, delim);
    CutTexts(b, pos, delim);
    CutKeepsFields(b, tokens, fields[..n], pos, delim);
    AddField(Cut(b, pos, delim), tokens, fields[..n], pos, pos + k + 1);
    assert fields[..n] + [fields[n]] == fields[..n + 1] && fields[n..][1..] == fields[n + 1..];
  }

  lemma SplitHead(t: string, delim: string)
    ensures
      var fields, k := Split(t, delim), FirstDelim(t, delim);
      && fields[0] == t[..k] && (k < |t| <==> |fields| > 1)
      && (k < |t| ==> Split(t[k + 1..], delim) == fields[1..])
  {
  }

  lemma AddField(b: seq<char>, tokens: seq<nat>, fields: seq<string>, pos: nat, limit: nat)
    requires Terminated(b, pos) && FieldsAt(b, tokens, fields, pos) && End(b, pos) < limit
    ensures FieldsAt(b, tokens + [pos], fields + [TextAt(b, pos)], limit)
  {
    hide TextAt, End;
  }

  lemma CutKeepsBehind(b: seq<char>, pos: nat, delim: string)
    requires Terminated(b, pos)
    ensures
      var t := TextAt(b, pos);
      var k := FirstDelim(t, delim);
      var c := Cut(b, pos, delim);
      && |c| == |b| && (forall i | End(b, pos) <= i < |b| :: c[i] == b[i])
      && (k < |t| ==> Terminated(c, pos + k + 1) && End(c, pos + k + 1) == End(b, pos))
  {
    hide End, FirstDelim;
    var t := TextAt(b, pos);
    var k := FirstDelim(t, delim);
    if k < |t| {
      EndIs(Cut(b, pos, delim), pos + k + 1, End(b, pos));
    }
  }

  lemma NoFields(b: seq<char>, fields: seq<string>, limit: nat)
    ensures FieldsAt(b, [], fields[..0], limit) && fields[0..] == fields
  {
  }

  lemma FieldsEnd(b: seq<char>, tokens: seq<nat>, fields: seq<string>, limit: nat)
    requires FieldsAt(b, tokens, fields, limit)
    ensures FieldsAt(b, tokens, fields, |b|)
  {
  }

  /** Up to `want` fields of the line at `line1`, by one call after the other. In the end every token
      still reads as its field, and the buffer from the end of the line on is as it was. */
  method ReadFields(tok: Tokenizer, buf: array<char>, line1: nat, delim: string, want: nat) returns (tokens: seq<nat>)
    requires Terminated(buf[..], line1) && '\0' !in delim && want > 0
    modifies tok, buf
    ensures
      var fields := Split(TextAt(old(buf[..]), line1), delim);
      FieldsAt(buf[..], tokens, if want < |fields| then fields[..want] else fields, buf.Length)
    ensures forall k | End(old(buf[..]), line1) <= k < buf.Length :: buf[k] == old(buf[k])
  {
    hide End, FirstDelim, TextAt, Split, FieldsAt, Cut;
    ghost var fields := Split(TextAt(buf[..], line1), delim);
    ghost var pos: nat, limit: nat := line1, End(buf[..], line1);
    tokens := [];
    var n := 0;
    NoFields(buf[..], fields, line1);
    while n < want
      invariant 0 <= n <= want && n <= |fields|
      invariant if n == 0 then pos == line1 else tok.olds == if n < |fields| then At(buf, pos) else Null
      invariant FieldsAt(buf[..], tokens, fields[..n], if n < |fields| then pos else buf.Length)
      invariant n < |fields| ==>
                  && Terminated(buf[..], pos) && End(buf[..], pos) == limit
                  && Split(TextAt(buf[..], pos), delim) == fields[n..]
      invariant forall k | limit <= k < buf.Length :: buf[k] == old(buf[k])
      decreases want - n
    {
      ghost var was := buf[..];
      var token := tok.BlankStrtok(if n == 0 then At(buf, line1) else Null, delim);
      if token.Null? {
        assert fields[..n] == fields;
        return;
      }
      OneMoreField(was, tokens, fields, n, pos, delim);
      CutKeepsBehind(was, pos, delim);
      tokens := tokens + [token.pos];
      pos := pos + FirstDelim(TextAt(was, pos), delim) + 1;
      n := n + 1;
      if n == |fields| {
        FieldsEnd(buf[..], tokens, fields[..n], pos);
      }
    }
    FieldsEnd(buf[..], tokens, fields[..n], if n < |fields| then pos else buf.Length);
    assert n == |fields| ==> fields[..n] == fields;
  }

  // ------------------------------------------------------------------ game information

  const FIELDS := 10

  /** The message names what is missing: a line, or one of the fields of the first. */
  datatype GameInfo = MissingLine1 | MissingLine2 | MissingField(n: nat) | Parsed(fields: seq<string>, mapname: string)

  /** Two non-empty lines, ten fields in the first, the map's name in the second. */
  function InfoOf(gameinfo: string): GameInfo {
    var lines := Pieces(gameinfo, "\r");
    if lines == [] then MissingLine1
    else if |lines| == 1 then MissingLine2
    else
      var fields := Split(lines[0], ",");
      if |fields| < FIELDS then MissingField(|fields|) else Parsed(fields[..FIELDS], lines[1])
  }

  /** A field is reported missing exactly when the first line has fewer than nine commas, and then it is
      the first one that is. */
  lemma MissingFieldLaw(gameinfo: string, n: nat)
    ensures InfoOf(gameinfo) == MissingField(n) <==>
            var lines := Pieces(gameinfo, "\r");
            |lines| >= 2 && Count(lines[0], ",") + 1 == n < FIELDS
  {
    hide Pieces, Split;
    var lines := Pieces(gameinfo, "\r");
    if |lines| >= 2 {
      SplitCounts(lines[0], ",");
    }
  }

  // --------------------------------------------- the same, said of the text itself

  ghost predicate Returns(s: string) {
    forall c | c in s :: c == '\r'
  }

  /** The first line of `t` that is not empty, between what goes before and the rest. */
  ghost predicate FirstLine(t: string, before: string, line: string, rest: string) {
    && t == before + line + rest && Returns(before) && line != "" && '\r' !in line
    && (rest == "" || rest[0] == '\r')
  }

  ghost predicate TwoLines(t: string, before: string, line1: string, between: string, line2: string, rest: string) {
    FirstLine(t, before, line1, between + line2 + rest) && FirstLine(between + line2 + rest, between, line2, rest)
  }

  /** The fields are the first of the line: joined they are its start, up to a comma or the end. */
  ghost predicate StartOf(line: string, fields: seq<string>, tail: string) {
    && fields != [] && Clean(fields, ",") && line == Join(fields, ',') + tail
    && (tail == "" || tail[0] == ',')
  }

  lemma {:induction false} JoinPrefix(fields: seq<string>, n: nat, d: char)
    requires 0 < n <= |fields|
    ensures Join(fields, d) == Join(fields[..n], d) + if n < |fields| then [d] + Join(fields[n..], d) else ""
  {
    if n == |fields| {
      assert fields[..n] == fields;
    } else if n == 1 {
      assert fields[..1] == [fields[0]];
    } else {
      JoinPrefix(fields[1..], n - 1, d);
      assert fields[..n][1..] == fields[1..][..n - 1] && fields[1..][n - 1..] == fields[n..];
    }
  }

  lemma FieldsStart(line: string, n: nat)
    requires 0 < n <= |Split(line, ",")|
    ensures var fields := Split(line, ",");
            exists tail :: StartOf(line, fields[..n], tail)
  {
    hide Split;
    var fields := Split(line, ",");
    JoinSplit(line, ',');
    SplitCounts(line, ",");
    JoinPrefix(fields, n, ',');
    var tail := if n < |fields| then [','] + Join(fields[n..], ',') else "";
    assert StartOf(line, fields[..n], tail);
  }

  lemma PieceIsLine(t: string) returns (before: string, rest: string)
    ensures var pieces := Pieces(t, "\r");
            if pieces == [] then Returns(t)
            else FirstLine(t, before, pieces[0], rest) && Pieces(rest, "\r") == pieces[1..]
  {
    hide FirstDelim, SkipDelims, Pieces;
    FirstPiece(t, "\r");
    var skip := SkipDelims(t, "\r");
    var u := t[skip..];
    var k := FirstDelim(u, "\r");
    before, rest := t[..skip], u[k..];
    if skip < |t| {
      assert t == before + u[..k] + rest;
      assert u[0] !in "\r" && k > 0;
      assert forall c | c in before :: c == '\r';
      if k < |u| {
        LeadingReturn(rest);
        assert rest[1..] == u[k + 1..];
      } else {
        NoPieces();
      }
    }
  }

  lemma NoPieces()
    ensures Pieces("", "\r") == []
  {
    FirstPiece("", "\r");
  }

  lemma LeadingReturn(rest: string)
    requires rest != "" && rest[0] == '\r'
    ensures Pieces(rest, "\r") == Pieces(rest[1..], "\r")
  {
    assert FirstDelim(rest, "\r") == 0;
    assert Split(rest, "\r") == [rest[..0]] + Split(rest[1..], "\r");
    assert Split(rest, "\r")[1..] == Split(rest[1..], "\r");
  }

  /** What the outcome says of the text. It has no line that is not empty; or one, and only carriage returns
      around it; or the first line has too few commas; or the fields are the start of the first line and the
      map's name is the second. */
  lemma InfoLaw(gameinfo: string)
    ensures match InfoOf(gameinfo)
            case MissingLine1 => Returns(gameinfo)
            case MissingLine2 => exists before, line, rest :: FirstLine(gameinfo, before, line, rest) && Returns(rest)
            case MissingField(n) =>
              exists before, line, between, line2, rest ::
                TwoLines(gameinfo, before, line, between, line2, rest) && Count(line, ",") + 1 == n < 10
            case Parsed(fields, mapname) =>
              |fields| == 10 &&
              exists before, line, between, rest, tail ::
                TwoLines(gameinfo, before, line, between, mapname, rest) && StartOf(line, fields, tail)
  {
    hide Pieces, Split, FirstLine, StartOf, Returns;
    var lines := Pieces(gameinfo, "\r");
    var before, rest := PieceIsLine(gameinfo);
    if lines != [] {
      var between, last := PieceIsLine(rest);
      if |lines| == 1 {
        assert FirstLine(gameinfo, before, lines[0], rest) && Returns(rest);
      } else {
        assert rest == between + lines[1] + last by {
          LineIsThere(rest, between, lines[1], last);
        }
        assert TwoLines(gameinfo, before, lines[0], between, lines[1], last);
        SplitCounts(lines[0], ",");
        if |Split(lines[0], ",")| >= FIELDS {
          FieldsStart(lines[0], FIELDS);
          var tail :| StartOf(lines[0], Split(lines[0], ",")[..FIELDS], tail);
        }
      }
    }
  }

  lemma LineIsThere(t: string, before: string, line: string, rest: string)
    requires FirstLine(t, before, line, rest)
    ensures t == before + line + rest
  {
  }

  lemma CutKeepsFront(b: seq<char>, pos: nat, delim: string)
    requires Terminated(b, pos)
    ensures |Cut(b, pos, delim)| == |b| && forall i | 0 <= i < pos :: Cut(b, pos, delim)[i] == b[i]
  {
    hide End, FirstDelim;
  }

  /** Cutting at the end of the first piece leaves the other pieces behind it. */
  lemma NextPiece(b: seq<char>, start: nat, delim: string)
    requires Terminated(b, start)
    ensures
      var t := TextAt(b, start);
      var skip := SkipDelims(t, delim);
      var pieces := Pieces(t, delim);
      if skip == |t| then pieces == []
      else
        var p := start + skip;
        && Terminated(b, p) && pieces != []
        && (var k := FirstDelim(TextAt(b, p), delim);
            var c := Cut(b, p, delim);
            && |c| == |b| && (forall i | 0 <= i < p :: c[i] == b[i])
            && Terminated(c, p) && TextAt(c, p) == pieces[0] && End(c, p) == p + k
            && if k < |TextAt(b, p)| then
                 Terminated(c, p + k + 1) && Pieces(TextAt(c, p + k + 1), delim) == pieces[1..]
               else pieces[1..] == [])
  {
    hide End, FirstDelim, SkipDelims, Pieces, Cut, Split, NonEmpty;
    var t := TextAt(b, start);
    var skip := SkipDelims(t, delim);
    FirstPiece(t, delim);
    if skip < |t| {
      TextAtTail(b, start, skip);
      hide TextAt;
      var p := start + skip;
      CutTexts(b, p, delim);
      CutKeepsFront(b, p, delim);
      assert TextAt(b, p) == t[skip..];
    }
  }

  method StrDup(text: string) returns (save: array<char>)
    requires '\0' !in text
    ensures fresh(save) && Terminated(save[..], 0) && TextAt(save[..], 0) == text
  {
    save := new char[|text| + 1](i requires 0 <= i <= |text| => if i < |text| then text[i] else '\0');
    EndIs(save[..], 0, |text|);
    assert save[..][0..|text|] == text;
  }

  /** The first two lines of the text in the buffer, as far as there are any. */
  method FirstTwoLines(strtok: Tokenizer, save: array<char>) returns (line1: Ptr, line2: Ptr)
    requires Terminated(save[..], 0)
    modifies strtok, save
    ensures
      var lines, now := Pieces(TextAt(old(save[..]), 0), "\r"), save[..];
      && (lines == [] <==> line1 == Null) && (|lines| < 2 <==> line2 == Null)
      && (|lines| >= 2 ==>
            && line1.At? && line2.At? && line1.buf == line2.buf == save
            && Terminated(now, line1.pos) && TextAt(now, line1.pos) == lines[0] && End(now, line1.pos) < line2.pos
            && Terminated(now, line2.pos) && TextAt(now, line2.pos) == lines[1])
  {
    hide End, FirstDelim, SkipDelims, Split, Pieces, Cut, TextAt;
    ghost var lines := Pieces(TextAt(save[..], 0), "\r");
    NextPiece(save[..], 0, "\r");
    line2 := Null;
    line1 := strtok.Strtok(At(save, 0), "\r");
    if line1.Null? {
      return;
    }
    ghost var b := save[..];
    if strtok.olds.At? {
      NextPiece(b, strtok.olds.pos, "\r");
    }
    line2 := strtok.Strtok(Null, "\r");
    if line2.Null? {
      assert lines[1..] == [];
      return;
    }
    assert lines[1..][0] == lines[1];
    TextAtSame(b, save[..], line1.pos);
  }

  method ParseInfo(gameinfo: string, strtok: Tokenizer, blank: Tokenizer) returns (r: GameInfo)
    requires '\0' !in gameinfo
    modifies strtok, blank
    ensures r == InfoOf(gameinfo)
  {
    hide End, FirstDelim, Split, Pieces, TextAt;
    var save := StrDup(gameinfo);
    var line1, line2 := FirstTwoLines(strtok, save);
    if line1.Null? {
      return MissingLine1;
    }
    if line2.Null? {
      return MissingLine2;
    }
    ghost var before := save[..];
    var tokens := ReadFields(blank, save, line1.pos, ",", FIELDS);
    if |tokens| < FIELDS {
      return MissingField(|tokens|);
    }
    var after := save[..];
    TextAtSame(before, after, line2.pos);
    var fields := seq(FIELDS, i requires 0 <= i < FIELDS && Terminated(after, tokens[i]) => TextAt(after, tokens[i]));
    return Parsed(fields, TextAt(after, line2.pos));
  }
}
