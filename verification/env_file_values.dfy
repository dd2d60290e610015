/** Which values come back from an env file, line boundaries and quotes included (scripts/env_writer.py). */
module EnvFileValues {
  import opened Text
  import opened EnvLine
  import opened EnvFile
  import opened EnvFileMeaning
  import opened EnvFileStructure

  // ---------- Lines and quotes ----------

  predicate IsQuote(c: char) {
    c == '"' || c == '\''
  }

  predicate NoQuotes(s: string) {
    forall k | 0 <= k < |s| :: !IsQuote(s[k])
  }

  /** Between two quotes there is an end of a line; `inside` when there was a quote since the last one. */
  predicate Parted(s: string, inside: bool) {
    s == "" ||
    (if IsQuote(s[0]) then !inside && Parted(s[1..], true)
     else Parted(s[1..], inside && !IsBoundary(s[0])))
  }

  /** At most one quote. */
  ghost predicate LoneQuote(s: string) {
    forall i, j | 0 <= i < j < |s| :: !(IsQuote(s[i]) && IsQuote(s[j]))
  }

  /** One line, and then nothing but what ends it. */
  predicate Ended(line: string) {
    forall k | LineLength(line) <= k < |line| :: IsBoundary(line[k])
  }

  /** A line with at most one quote. */
  ghost predicate Lone(line: string) {
    Ended(line) && LoneQuote(line[..LineLength(line)])
  }

  lemma {:induction false} PartedAppend(a: string, b: string, inside: bool)
    requires NoQuotes(a)
    ensures Parted(a + b, inside) == Parted(b, inside && OneLine(a))
  {
    if a == "" {
      AfterPrefix("", b);
    } else {
      assert (a + b)[0] == a[0] && (a + b)[1..] == a[1..] + b;
      PartedAppend(a[1..], b, inside && !IsBoundary(a[0]));
      OneLineFirst(a);
    }
  }

  lemma OneLineFirst(s: string)
    requires s != ""
    ensures OneLine(s) <==> !IsBoundary(s[0]) && OneLine(s[1..])
  {
    assert forall k | 0 < k < |s| :: s[k] == s[1..][k - 1];
  }

  /** Reading in text mode keeps the lines apart. */
  lemma {:induction false} PartedInTextMode(raw: string, inside: bool)
    requires Parted(raw, inside)
    ensures Parted(UniversalNewlines(raw), inside)
    decreases |raw|
  {
    if raw != "" {
      if raw[0] != '\r' {
        PartedInTextMode(raw[1..], if IsQuote(raw[0]) then true else inside && !IsBoundary(raw[0]));
      } else if |raw| > 1 && raw[1] == '\n' {
        assert raw[1..][1..] == raw[2..];
        PartedInTextMode(raw[2..], false);
      } else {
        PartedInTextMode(raw[1..], false);
      }
    }
  }

  /** The first line has at most one quote, and none after an open one. */
  lemma {:induction false} FirstLineLone(s: string, inside: bool)
    requires Parted(s, inside)
    ensures LoneQuote(s[..LineLength(s)]) && (inside ==> NoQuotes(s[..LineLength(s)]))
  {
    if s != "" && !IsBoundary(s[0]) {
      FirstLineLone(s[1..], inside || IsQuote(s[0]));
      LoneMore(s, s[1..], LineLength(s[1..]));
    }
  }

  lemma LoneMore(s: string, rest: string, n: nat)
    requires s != "" && rest == s[1..] && n <= |rest| && LoneQuote(rest[..n])
    requires IsQuote(s[0]) ==> NoQuotes(rest[..n])
    ensures LoneQuote(s[..n + 1])
    ensures !IsQuote(s[0]) && NoQuotes(rest[..n]) ==> NoQuotes(s[..n + 1])
  {
    assert s[..n + 1] == [s[0]] + rest[..n];
  }

  /** What follows the first line starts outside. */
  lemma {:induction false} PartedAfterLine(s: string, inside: bool)
    requires Parted(s, inside) && LineLength(s) < |s|
    ensures Parted(s[LineLength(s) + 1..], false)
  {
    if !IsBoundary(s[0]) {
      PartedAfterLine(s[1..], if IsQuote(s[0]) then true else inside);
    }
  }

  lemma PartedRest(s: string, n: nat, cut: nat)
    requires Parted(s, false) && n == LineLength(s) && cut == n + TerminatorLength(s, n)
    ensures Parted(s[cut..], false)
  {
    if n < |s| {
      PartedAfterLine(s, false);
      PartedNext(s, n + 1, cut);
    }
  }

  lemma PartedNext(s: string, n: nat, cut: nat)
    requires n <= cut <= |s| && Parted(s[n..], false) && (cut == n || (cut == n + 1 && s[n] == '\n'))
    ensures Parted(s[cut..], false)
  {
    if cut == n + 1 {
      assert s[n..][0] == '\n' && s[n..][1..] == s[cut..];
    }
  }

  lemma TerminatorEnds(s: string, n: nat, cut: nat)
    requires n == LineLength(s) && cut == n + TerminatorLength(s, n)
    ensures forall k | n <= k < cut :: IsBoundary(s[k])
  {
  }

  lemma FirstLineEnded(s: string, n: nat, cut: nat, line: string)
    requires n == LineLength(s) && cut == n + TerminatorLength(s, n) && line == s[..cut]
    ensures Ended(line) && LineLength(line) == n && line[..n] == s[..n]
  {
    TerminatorEnds(s, n, cut);
    EndedParts(s[..n], s[n..cut], line);
  }

  lemma EndedParts(first: string, end: string, line: string)
    requires OneLine(first) && line == first + end && forall k | 0 <= k < |end| :: IsBoundary(end[k])
    ensures Ended(line) && LineLength(line) == |first| && line[..|first|] == first
  {
    LineLengthOf(first, end);
  }

  lemma {:induction false} AfterEqualsPart(line: string)
    ensures |AfterEquals(line)| <= |line| && AfterEquals(line) == line[|line| - |AfterEquals(line)|..]
  {
    if line != "" && line[0] != '=' {
      AfterEqualsPart(line[1..]);
    }
  }

  lemma PartSuffix(t: string, s: string)
    requires OneLine(t) && |s| <= |t| && s == t[|t| - |s|..]
    ensures OneLine(s) && (LoneQuote(t) ==> LoneQuote(s))
  {
    assert forall k | 0 <= k < |s| :: s[k] == t[|t| - |s| + k];
  }

  /** A part of a line that does not end in space has nothing of what ends the line. */
  lemma SolidPart(line: string, n: nat, part: string, p: nat)
    requires Ended(line) && n == LineLength(line)
    requires p + |part| <= |line| && part == line[p..p + |part|] && (part == "" || !IsSpace(part[|part| - 1]))
    ensures OneLine(part) && (LoneQuote(line[..n]) ==> LoneQuote(part))
  {
    if part != "" {
      EndsBefore(line, n, part, p);
      assert forall k | 0 <= k < |part| :: part[k] == line[..n][p + k];
    }
  }

  lemma EndsBefore(line: string, n: nat, part: string, p: nat)
    requires Ended(line) && n == LineLength(line) && p + |part| <= |line| && part == line[p..p + |part|]
    requires part != "" && !IsSpace(part[|part| - 1])
    ensures p + |part| <= n
  {
    var last := p + |part| - 1;
    assert line[last] == part[|part| - 1];
    SolidIsNoBoundary(line[last]);
  }

  lemma SolidIsNoBoundary(c: char)
    requires !IsSpace(c)
    ensures !IsBoundary(c)
  {
  }

  lemma StrippedPart(line: string, n: nat, tail: string, p: nat)
    requires Ended(line) && n == LineLength(line) && p <= |line| && tail == line[p..]
    ensures OneLine(StripRight(tail)) && (LoneQuote(line[..n]) ==> LoneQuote(StripRight(tail)))
  {
    PrefixOfPart(line, tail, StripRight(tail), p);
    SolidPart(line, n, StripRight(tail), p);
  }

  lemma PrefixOfPart(line: string, tail: string, right: string, p: nat)
    requires p <= |line| && tail == line[p..] && |right| <= |tail| && right == tail[..|right|]
    ensures right == line[p..p + |right|]
  {
  }

  lemma StrippedLeft(tail: string)
    requires OneLine(StripRight(tail))
    ensures OneLine(Strip(tail)) && (LoneQuote(StripRight(tail)) ==> LoneQuote(Strip(tail)))
  {
    PartSuffix(StripRight(tail), StripLeft(StripRight(tail)));
  }

  /** What follows the equals sign, stripped, is part of its line. */
  lemma StaysOnLine(line: string)
    requires Ended(line)
    ensures OneLine(Strip(AfterEquals(line))) && (Lone(line) ==> LoneQuote(Strip(AfterEquals(line))))
  {
    AfterEqualsPart(line);
    StrippedPart(line, LineLength(line), AfterEquals(line), |line| - |AfterEquals(line)|);
    StrippedLeft(AfterEquals(line));
  }

  lemma NotQuoted(s: string, eval: string -> Literal)
    requires OneLine(s) && LoneQuote(s) && SolidEnds(s)
    ensures OneLine(DecodeValue(s, eval))
  {
    StripSolid(s);
    assert !IsQuoted(s);
  }

  /** A line with at most one quote loads as part of that line. */
  lemma LoneValue(line: string, eval: string -> Literal)
    requires Lone(line)
    ensures OneLine(ValueOf(line, eval))
  {
    StaysOnLine(line);
    NotQuoted(Strip(AfterEquals(line)), eval);
  }

  predicate IfAnyOneLine(value: Option<string>) {
    value.Some? ==> OneLine(value.value)
  }

  lemma LinesTakeText(s: string, n: nat, cut: nat)
    requires s != "" && n == LineLength(s) && cut == n + TerminatorLength(s, n)
    ensures 0 < cut <= |s|
  {
  }

  lemma FirstLineOf(s: string, n: nat, cut: nat, first: string, rest: string)
    requires s != "" && n == LineLength(s) && cut == n + TerminatorLength(s, n) && cut <= |s|
    requires first == s[..cut] && rest == s[cut..]
    ensures SplitKeepEnds(s) == [first] + SplitKeepEnds(rest)
  {
  }

  ghost predicate LoneLines(lines: seq<string>) {
    forall k | 0 <= k < |lines| :: Lone(lines[k])
  }

  /** A text whose quotes are parted is cut into lines with at most one quote. */
  lemma {:induction false} PartedLines(s: string)
    requires Parted(s, false)
    ensures LoneLines(SplitKeepEnds(s))
    decreases |s|
  {
    if s != "" {
      var n := LineLength(s);
      var cut := n + TerminatorLength(s, n);
      LinesTakeText(s, n, cut);
      FirstLineOf(s, n, cut, s[..cut], s[cut..]);
      FirstLineEnded(s, n, cut, s[..cut]);
      FirstLineLone(s, false);
      PartedRest(s, n, cut);
      PartedLines(s[cut..]);
    }
  }

  ghost predicate GiveOneLine(lines: seq<string>, q: string, syntax: Syntax) {
    forall k | 0 <= k < |lines| :: IfAnyOneLine(Given(lines[k], q, syntax))
  }

  lemma {:induction false} LoadsOneLine(lines: seq<string>, q: string, syntax: Syntax)
    requires GiveOneLine(lines, q, syntax)
    ensures IfAnyOneLine(LastOf(lines, q, syntax))
  {
    if lines != [] {
      LoadsOneLine(lines[1..], q, syntax);
      assert IfAnyOneLine(Given(lines[0], q, syntax));
    }
  }

  lemma GivesOneLine(line: string, q: string, eval: string -> Literal)
    requires OneLine(ValueOf(line, eval))
    ensures IfAnyOneLine(Given(line, q, EnvSyntax(eval)))
  {
    ReadsValue(line, eval);
    GivesWhatIsRead(line, q, EnvSyntax(eval));
  }

  lemma ReadsValue(line: string, eval: string -> Literal)
    ensures ReadLine(line, eval).Some? ==> ReadLine(line, eval).value.value == ValueOf(line, eval)
  {
  }

  lemma GivesWhatIsRead(line: string, q: string, syntax: Syntax)
    requires syntax.read(line).Some? ==> OneLine(syntax.read(line).value.value)
    ensures IfAnyOneLine(Given(line, q, syntax))
  {
  }

  lemma LoneLinesLoad(lines: seq<string>, q: string, eval: string -> Literal)
    requires LoneLines(lines)
    ensures IfAnyOneLine(LastOf(lines, q, EnvSyntax(eval)))
  {
    forall k | 0 <= k < |lines|
      ensures IfAnyOneLine(Given(lines[k], q, EnvSyntax(eval)))
    {
      LoneValue(lines[k], eval);
      GivesOneLine(lines[k], q, eval);
    }
    LoadsOneLine(lines, q, EnvSyntax(eval));
  }

  lemma {:induction false} EscapedParts(v: string)
    requires NoQuotes(v)
    ensures NoQuotes(EscapeEach(v)) && (OneLine(EscapeEach(v)) ==> OneLine(v))
  {
    if v != "" {
      assert forall k | 0 <= k < |v[1..]| :: v[1..][k] == v[k + 1];
      EscapedParts(v[1..]);
      EscapedMore(v[0], v[1..], EscapeEach(v[1..]));
      OneLineFirst(v);
    }
  }

  lemma EscapedMore(c: char, rest: string, escaped: string)
    requires !IsQuote(c) && NoQuotes(escaped) && (OneLine(escaped) ==> OneLine(rest))
    ensures NoQuotes(EscapeChar(c) + escaped)
    ensures OneLine(EscapeChar(c) + escaped) ==> !IsBoundary(c) && OneLine(rest)
  {
    var all := EscapeChar(c) + escaped;
    assert all[|EscapeChar(c)| - 1] == c;
    assert forall k | 0 <= k < |escaped| :: all[|EscapeChar(c)| + k] == escaped[k];
  }

  lemma BrokenIsQuoted(v: string)
    requires !OneLine(v)
    ensures FormatValue(v) == "\"" + EscapeEach(v) + "\""
  {
    var k :| 0 <= k < |v| && IsBoundary(v[k]);
    assert !IsSafe(v[k]);
    EscapeIsEach(v);
  }

  lemma QuotedIsParted(key: string, body: string)
    requires IsKey(key) && NoQuotes(body) && !OneLine(body)
    ensures Parted(key + ("=" + ("\"" + body + "\"")) + "\n", false)
  {
    var end := "\"" + "\n";
    assert end[0] == '"' && end[1..] == "\n";
    assert Parted("\n", true);
    PartedAppend(body, end, true);
    var quoted := "\"" + (body + end);
    assert quoted[0] == '"' && quoted[1..] == body + end;
    KeyHasNoEquals(key);
    PartedAppend(key + "=", quoted, false);
    assert key + ("=" + ("\"" + body + "\"")) + "\n" == (key + "=") + quoted;
  }

  lemma WrittenParted(key: string, v: string)
    requires IsKey(key) && NoQuotes(v) && !OneLine(v)
    ensures Parted(RenderLine("", key, v, true), false)
  {
    EscapedParts(v);
    BrokenIsQuoted(v);
    QuotedIsParted(key, EscapeEach(v));
    AfterPrefix("", key + ("=" + FormatValue(v)));
  }

  // ---------- Lines and escapes ----------

  /** Every backslash escapes a backslash or a double quote. */
  predicate PlainEscapes(s: string) {
    s == "" ||
    (if s[0] == '\\' then |s| >= 2 && s[1] in ['\\', '"'] && PlainEscapes(s[2..]) else PlainEscapes(s[1..]))
  }

  /** A law of `ast.literal_eval`: a quoted text on one line, whose only escapes are these, denotes text on one
      line, if it denotes text. */
  ghost predicate KeepsLines(eval: string -> Literal) {
    forall s | IsQuoted(s) && OneLine(s) && PlainEscapes(s) && eval(s).IsText? :: OneLine(eval(s).text)
  }

  lemma {:induction false} JoinEscapes(a: string, b: string)
    requires PlainEscapes(a) && PlainEscapes(b)
    ensures PlainEscapes(a + b)
  {
    if a == "" {
      AfterPrefix("", b);
    } else {
      var n := if a[0] == '\\' then 2 else 1;
      JoinEscapes(a[n..], b);
      FromNth(a, b, n);
    }
  }

  lemma FromNth(a: string, b: string, n: nat)
    requires 0 < n <= |a|
    ensures (a + b)[n..] == a[n..] + b && forall k | 0 <= k < n :: (a + b)[k] == a[k]
  {
  }

  /** Text is cut between escapes in front of anything that is not escaped. */
  lemma {:induction false} CutEscapes(a: string, b: string)
    requires PlainEscapes(a + b) && (b != "" ==> b[0] !in ['\\', '"'])
    ensures PlainEscapes(a) && PlainEscapes(b)
  {
    if a == "" {
      AfterPrefix("", b);
    } else {
      assert (a + b)[0] == a[0] && (|a| == 1 && b != "" ==> (a + b)[1] == b[0]);
      var n := if a[0] == '\\' then 2 else 1;
      FromNth(a, b, n);
      CutEscapes(a[n..], b);
    }
  }

  predicate NoBackslash(s: string) {
    forall k | 0 <= k < |s| :: s[k] != '\\'
  }

  lemma {:induction false} NoEscapes(s: string)
    requires NoBackslash(s)
    ensures PlainEscapes(s)
  {
    if s != "" {
      NoEscapes(s[1..]);
    }
  }

  /** What follows text without a backslash. */
  lemma {:induction false} EscapesAfter(a: string, b: string)
    requires PlainEscapes(a + b) && NoBackslash(a)
    ensures PlainEscapes(b)
  {
    if a == "" {
      AfterPrefix("", b);
    } else {
      FromNth(a, b, 1);
      EscapesAfter(a[1..], b);
    }
  }

  lemma {:induction false} AfterEqualsEscapes(line: string)
    requires PlainEscapes(line)
    ensures PlainEscapes(AfterEquals(line))
  {
    if line != "" && line[0] == '\\' {
      assert AfterEquals(line) == AfterEquals(line[1..]) && AfterEquals(line[1..]) == AfterEquals(line[1..][1..]);
      assert line[1..][1..] == line[2..];
      AfterEqualsEscapes(line[2..]);
    } else if line != "" && line[0] != '=' {
      AfterEqualsEscapes(line[1..]);
    }
  }

  lemma {:induction false} StripRightEscapes(s: string)
    requires PlainEscapes(s)
    ensures PlainEscapes(StripRight(s))
  {
    if s != "" && IsSpace(s[|s| - 1]) {
      assert s == s[..|s| - 1] + [s[|s| - 1]];
      CutEscapes(s[..|s| - 1], [s[|s| - 1]]);
      StripRightEscapes(s[..|s| - 1]);
    }
  }

  lemma {:induction false} StripLeftEscapes(s: string)
    requires PlainEscapes(s)
    ensures PlainEscapes(StripLeft(s))
  {
    if s != "" && IsSpace(s[0]) {
      StripLeftEscapes(s[1..]);
    }
  }

  lemma {:induction false} UnescapedOneLine(body: string)
    requires IsPlainLiteral(body) && OneLine(body)
    ensures OneLine(Unescape(body))
  {
    if body != "" {
      UnescapedOneLine(body[if body[0] == '\\' then 2 else 1..]);
    }
  }

  lemma DecodedOneLine(s: string, eval: string -> Literal)
    requires KeepsLines(eval) && OneLine(s) && PlainEscapes(s) && SolidEnds(s)
    ensures OneLine(DecodeValue(s, eval))
  {
    StripSolid(s);
    if IsQuoted(s) {
      InnerOneLine(s, s[1..|s| - 1]);
      QuotedOneLine(s, s[1..|s| - 1], eval);
    }
  }

  lemma InnerOneLine(s: string, body: string)
    requires OneLine(s) && |s| >= 2 && body == s[1..|s| - 1]
    ensures OneLine(body)
  {
    assert forall k | 0 <= k < |body| :: body[k] == s[k + 1];
  }

  lemma QuotedOneLine(s: string, body: string, eval: string -> Literal)
    requires KeepsLines(eval) && IsQuoted(s) && body == s[1..|s| - 1]
    requires OneLine(s) && PlainEscapes(s) && OneLine(body)
    ensures OneLine(DecodeQuoted(s, eval))
  {
    if IsPlainLiteral(body) {
      UnescapedOneLine(body);
    }
  }

  /** A line of text that was escaped. */
  ghost predicate Escaped(line: string) {
    Ended(line) && PlainEscapes(line)
  }

  lemma EscapedValue(line: string, eval: string -> Literal)
    requires KeepsLines(eval) && Escaped(line)
    ensures OneLine(ValueOf(line, eval))
  {
    StaysOnLine(line);
    AfterEqualsEscapes(line);
    StripRightEscapes(AfterEquals(line));
    StripLeftEscapes(StripRight(AfterEquals(line)));
    DecodedOneLine(Strip(AfterEquals(line)), eval);
  }

  lemma EscapedLine(line: string, end: string, rest: string)
    requires PlainEscapes(line + (end + rest)) && NoBackslash(end)
    requires end + rest != "" ==> (end + rest)[0] !in ['\\', '"']
    ensures PlainEscapes(line + end) && PlainEscapes(rest)
  {
    CutEscapes(line, end + rest);
    EscapesAfter(end, rest);
    NoEscapes(end);
    JoinEscapes(line, end);
  }

  lemma CutTwice(s: string, n: nat, cut: nat)
    requires n <= cut <= |s|
    ensures s == s[..n] + (s[n..cut] + s[cut..]) && s[..cut] == s[..n] + s[n..cut]
  {
  }

  lemma EscapedFirst(s: string, n: nat, cut: nat)
    requires PlainEscapes(s) && n == LineLength(s) && cut == n + TerminatorLength(s, n)
    ensures PlainEscapes(s[..cut]) && PlainEscapes(s[cut..])
  {
    CutTwice(s, n, cut);
    EscapedLine(s[..n], s[n..cut], s[cut..]);
  }

  ghost predicate EscapedLines(lines: seq<string>) {
    forall k | 0 <= k < |lines| :: Escaped(lines[k])
  }

  lemma {:induction false} LinesOfEscaped(s: string)
    requires PlainEscapes(s)
    ensures EscapedLines(SplitKeepEnds(s))
    decreases |s|
  {
    if s != "" {
      var n := LineLength(s);
      var cut := n + TerminatorLength(s, n);
      LinesTakeText(s, n, cut);
      FirstLineOf(s, n, cut, s[..cut], s[cut..]);
      FirstLineEnded(s, n, cut, s[..cut]);
      EscapedFirst(s, n, cut);
      LinesOfEscaped(s[cut..]);
    }
  }

  lemma EscapedLinesLoad(lines: seq<string>, q: string, eval: string -> Literal)
    requires KeepsLines(eval) && EscapedLines(lines)
    ensures IfAnyOneLine(LastOf(lines, q, EnvSyntax(eval)))
  {
    forall k | 0 <= k < |lines|
      ensures IfAnyOneLine(Given(lines[k], q, EnvSyntax(eval)))
    {
      EscapedValue(lines[k], eval);
      GivesOneLine(lines[k], q, eval);
    }
    LoadsOneLine(lines, q, EnvSyntax(eval));
  }

  /** Reading in text mode takes no escape apart. */
  lemma {:induction false} EscapesInTextMode(raw: string)
    requires PlainEscapes(raw)
    ensures PlainEscapes(UniversalNewlines(raw))
    decreases |raw|
  {
    if raw != "" {
      if raw[0] == '\\' {
        assert raw[1..][1..] == raw[2..] && raw[1..][0] == raw[1];
        assert UniversalNewlines(raw) == [raw[0]] + ([raw[1]] + UniversalNewlines(raw[2..]));
        EscapesInTextMode(raw[2..]);
        PairFirst(raw[0], raw[1], UniversalNewlines(raw[2..]));
      } else if raw[0] == '\r' && |raw| > 1 && raw[1] == '\n' {
        assert raw[1..][1..] == raw[2..];
        EscapesInTextMode(raw[2..]);
        JoinEscapes("\n", UniversalNewlines(raw[2..]));
      } else {
        EscapesInTextMode(raw[1..]);
        var first := if raw[0] == '\r' then "\n" else [raw[0]];
        NoEscapes(first);
        JoinEscapes(first, UniversalNewlines(raw[1..]));
      }
    }
  }

  lemma PairFirst(a: char, b: char, rest: string)
    requires a == '\\' && b in ['\\', '"'] && PlainEscapes(rest)
    ensures PlainEscapes([a] + ([b] + rest))
  {
    var s := [a] + ([b] + rest);
    assert s[0] == a && s[1] == b && s[2..] == rest;
  }

  lemma {:induction false} EscapeIsPlain(v: string)
    ensures PlainEscapes(EscapeEach(v))
  {
    if v != "" {
      EscapeIsPlain(v[1..]);
      if v[0] in ['\\', '"'] {
        PairFirst('\\', v[0], EscapeEach(v[1..]));
        assert EscapeChar(v[0]) + EscapeEach(v[1..]) == ['\\'] + ([v[0]] + EscapeEach(v[1..]));
      } else {
        NoEscapes([v[0]]);
        JoinEscapes([v[0]], EscapeEach(v[1..]));
      }
    }
  }

  lemma WrittenEscaped(key: string, v: string)
    requires IsKey(key) && !OneLine(v)
    ensures PlainEscapes(RenderLine("", key, v, true))
  {
    var before, after := key + ("=" + "\""), "\"" + "\n";
    BrokenIsQuoted(v);
    EscapeIsPlain(v);
    KeyHasNoBackslash(key);
    NoEscapes(before);
    NoEscapes(after);
    JoinEscapes(EscapeEach(v), after);
    JoinEscapes(before, EscapeEach(v) + after);
    Surrounded(key, EscapeEach(v));
  }

  lemma KeyHasNoBackslash(key: string)
    requires IsKey(key)
    ensures NoBackslash(key + ("=" + "\""))
  {
    assert forall k | 0 <= k < |key| :: IsWord(key[k]);
  }

  lemma Surrounded(key: string, body: string)
    ensures "" + (key + ("=" + ("\"" + body + "\""))) + "\n" == (key + ("=" + "\"")) + (body + ("\"" + "\n"))
  {
  }

  // ---------- Exactly which values survive ----------

  /** What a new file loads a key as after the key is given a value. */
  function LoadedBack(key: string, v: string, eval: string -> Literal): Option<string> {
    LastOf(LoadLines(Some(UpdatedText("", [Entry(key, v)], false, eval)), None), key, EnvSyntax(eval))
  }

  lemma CleanLoadsBack(key: string, v: string, eval: string -> Literal)
    requires IsKey(key) && CleanValue(v)
    ensures LoadedBack(key, v, eval) == Some(v)
  {
    assert UniversalNewlines("") == "" && SplitKeepEnds("") == [];
    FileUpdateMeaning(Some(""), None, [Entry(key, v)], key, false, eval);
  }

  /** One without quotes needs no law: it does so whatever `ast.literal_eval` makes of quoted text. */
  lemma UnquotedLoadsBack(key: string, v: string, eval: string -> Literal)
    requires IsKey(key) && NoQuotes(v) && '\0' !in v
    ensures LoadedBack(key, v, eval) == Some(v) <==> OneLine(v)
  {
    if OneLine(v) {
      CleanLoadsBack(key, v, eval);
    } else {
      OneRequest(Entry(key, v), eval);
      WrittenParted(key, v);
      PartedInTextMode(RenderLine("", key, v, true), false);
      PartedLines(UniversalNewlines(RenderLine("", key, v, true)));
      LoneLinesLoad(SplitKeepEnds(UniversalNewlines(RenderLine("", key, v, true))), key, eval);
    }
  }

  /** A value without NUL loads as it was given if and only if it has no line boundary. */
  lemma LoadsBackExactly(key: string, v: string, eval: string -> Literal)
    requires IsKey(key) && '\0' !in v && KeepsLines(eval)
    ensures LoadedBack(key, v, eval) == Some(v) <==> OneLine(v)
  {
    if OneLine(v) {
      CleanLoadsBack(key, v, eval);
    } else {
      var stored := RenderLine("", key, v, true);
      OneRequest(Entry(key, v), eval);
      WrittenEscaped(key, v);
      EscapesInTextMode(stored);
      LinesOfEscaped(UniversalNewlines(stored));
      EscapedLinesLoad(SplitKeepEnds(UniversalNewlines(stored)), key, eval);
    }
  }
}
