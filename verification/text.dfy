/** Python text primitives shared by the editors: line splitting and joining, the reading of
    decimal numbers, and prefixes. A `string` is a Python `str`, one `char` per code point. */
module Text {

  datatype Option<+T> = None | Some(value: T)

  datatype Result<+T, +E> = Ok(value: T) | Err(error: E)

  // ---------- Lines ----------

  /** The characters at which `str.splitlines` ends a line. */
  predicate IsBoundary(c: char) {
    '\n' <= c <= '\r' || '\U{1C}' <= c <= '\U{1E}' || c == '\U{85}' || '\U{2028}' <= c <= '\U{2029}'
  }

  /** Text that `splitlines` would not cut. */
  predicate OneLine(s: string) {
    forall k | 0 <= k < |s| :: !IsBoundary(s[k])
  }

  ghost predicate AllOneLine(lines: seq<string>) {
    forall k | 0 <= k < |lines| :: OneLine(lines[k])
  }

  /** The length of the first line of `s`, without its terminator. */
  function LineLength(s: string): (n: nat)
    ensures n <= |s|
    ensures OneLine(s[..n])
    ensures n < |s| ==> IsBoundary(s[n])
  {
    if s == "" || IsBoundary(s[0]) then 0 else 1 + LineLength(s[1..])
  }

  /** The length of the terminator that starts at `n`: `\r\n` counts as one. */
  function TerminatorLength(s: string, n: nat): (t: nat)
    requires n <= |s|
    ensures n + t <= |s|
    ensures t == 0 <==> n == |s|
  {
    if n == |s| then 0 else if s[n] == '\r' && n + 1 < |s| && s[n + 1] == '\n' then 2 else 1
  }

  /** `s.splitlines()` */
  function SplitLines(s: string): (lines: seq<string>)
    ensures AllOneLine(lines)
    decreases |s|
  {
    if s == "" then [] else
      var n := LineLength(s);
      [s[..n]] + SplitLines(s[n + TerminatorLength(s, n)..])
  }

  /** `s.splitlines(keepends=True)` */
  function SplitKeepEnds(s: string): (lines: seq<string>)
    decreases |s|
  {
    if s == "" then [] else
      var n := LineLength(s);
      var cut := n + TerminatorLength(s, n);
      [s[..cut]] + SplitKeepEnds(s[cut..])
  }

  /** `"\n".join(lines)` */
  function Join(lines: seq<string>): string {
    if lines == [] then "" else if |lines| == 1 then lines[0] else lines[0] + "\n" + Join(lines[1..])
  }

  /** Every line followed by a newline. */
  function Terminated(lines: seq<string>): string {
    if lines == [] then "" else lines[0] + "\n" + Terminated(lines[1..])
  }

  /** `"".join(parts)` */
  function Concat(parts: seq<string>): string {
    if parts == [] then "" else parts[0] + Concat(parts[1..])
  }

  lemma OneLineConcat(a: string, b: string)
    requires OneLine(a) && OneLine(b)
    ensures OneLine(a + b)
  {
  }

  lemma LineLengthOf(line: string, rest: string)
    requires OneLine(line)
    requires rest == "" || IsBoundary(rest[0])
    ensures LineLength(line + rest) == |line|
  {
    var s := line + rest;
    assert forall k | 0 <= k < |line| :: s[k] == line[k];
    assert rest != "" ==> s[|line|] == rest[0];
    var n := LineLength(s);
    assert forall k | 0 <= k < n :: s[k] == s[..n][k];
  }

  lemma SplitFirst(line: string, rest: string)
    requires OneLine(line)
    ensures SplitLines(line + "\n" + rest) == [line] + SplitLines(rest)
    ensures SplitKeepEnds(line + "\n" + rest) == [line + "\n"] + SplitKeepEnds(rest)
  {
    var s := line + "\n" + rest;
    ConcatAssoc(line, "\n", rest);
    LineLengthOf(line, "\n" + rest);
    assert s[|line|] == '\n';
    assert TerminatorLength(s, |line|) == 1;
    assert s[..|line|] == line && s[..|line| + 1] == line + "\n" && s[|line| + 1..] == rest;
  }

  lemma SplitLast(line: string)
    requires OneLine(line) && line != ""
    ensures SplitLines(line) == [line] == SplitKeepEnds(line)
  {
    LineLengthOf(line, "");
    assert line + "" == line;
    assert line[..|line|] == line && line[|line|..] == "";
  }

  lemma {:induction false} SplitTerminated(lines: seq<string>)
    requires AllOneLine(lines)
    ensures SplitLines(Terminated(lines)) == lines
  {
    if lines != [] {
      SplitFirst(lines[0], Terminated(lines[1..]));
      SplitTerminated(lines[1..]);
    }
  }

  lemma {:induction false} SplitUnterminated(lines: seq<string>, last: string)
    requires AllOneLine(lines) && OneLine(last) && last != ""
    ensures SplitLines(Terminated(lines) + last) == lines + [last]
  {
    if lines == [] {
      SplitLast(last);
      AfterPrefix("", last);
    } else {
      SplitUnterminated(lines[1..], last);
      SplitMore(lines[0], lines[1..], last);
    }
  }

  lemma SplitMore(line: string, lines: seq<string>, last: string)
    requires OneLine(line) && SplitLines(Terminated(lines) + last) == lines + [last]
    ensures SplitLines((line + "\n" + Terminated(lines)) + last) == ([line] + lines) + [last]
  {
    ConcatAssoc(line + "\n", Terminated(lines), last);
    SplitFirst(line, Terminated(lines) + last);
    ConcatAssoc([line], lines, [last]);
  }

  lemma {:induction false} TerminatedEnds(lines: seq<string>)
    ensures lines == [] <==> Terminated(lines) == ""
    ensures lines != [] ==> EndsWithNewline(Terminated(lines))
  {
    if lines != [] {
      TerminatedEnds(lines[1..]);
    }
  }

  lemma {:induction false} TerminatedIsJoin(lines: seq<string>)
    requires lines != []
    ensures Terminated(lines) == Join(lines) + "\n"
  {
    if |lines| == 1 {
      assert lines[1..] == [];
    } else {
      TerminatedIsJoin(lines[1..]);
      assert Terminated(lines) == lines[0] + "\n" + (Join(lines[1..]) + "\n");
    }
  }

  lemma {:induction false} JoinSnoc(lines: seq<string>, last: string)
    ensures Join(lines + [last]) == Terminated(lines) + last
  {
    if lines == [] {
      assert lines + [last] == [last];
    } else {
      assert (lines + [last])[1..] == lines[1..] + [last];
      JoinSnoc(lines[1..], last);
    }
  }

  /** `read_text` opens in text mode: `\r\n` and a lone `\r` both read as `\n`. */
  function UniversalNewlines(raw: string): (s: string)
    ensures '\r' !in s
  {
    if raw == "" then ""
    else if raw[0] != '\r' then [raw[0]] + UniversalNewlines(raw[1..])
    else if |raw| > 1 && raw[1] == '\n' then "\n" + UniversalNewlines(raw[2..])
    else "\n" + UniversalNewlines(raw[1..])
  }

  lemma {:induction false} UniversalNewlinesFixes(s: string)
    requires '\r' !in s
    ensures UniversalNewlines(s) == s
  {
    if s != "" {
      UniversalNewlinesFixes(s[1..]);
      assert s == [s[0]] + s[1..];
    }
  }

  lemma TerminatorFirst(s: string)
    requires s != "" && IsBoundary(s[0])
    ensures SplitLines(s) == [""] + SplitLines(s[TerminatorLength(s, 0)..])
  {
    assert LineLength(s) == 0 && s[..0] == "";
  }

  /** A character in front of a text makes the first line longer. */
  lemma MoreOnFirstLine(c: char, s: string, all: string)
    requires !IsBoundary(c) && all == [c] + s
    ensures SplitLines(all) == if s == "" || SplitLines(s) == [] then [[c]] else [[c] + SplitLines(s)[0]] + SplitLines(s)[1..]
  {
    assert all[1..] == s;
    if s == "" {
      SplitLast([c]);
      assert all == [c];
    } else {
      var n := LineLength(s);
      OneFurther(c, s, all, n, n + TerminatorLength(s, n));
      FirstOfLines(s, n);
      FirstOfLines(all, n + 1);
    }
  }

  lemma FirstOfLines(s: string, n: nat)
    requires s != "" && n == LineLength(s)
    ensures SplitLines(s) == [s[..n]] + SplitLines(s[n + TerminatorLength(s, n)..])
  {
  }

  lemma OneFurther(c: char, s: string, all: string, n: nat, cut: nat)
    requires !IsBoundary(c) && all == [c] + s && n == LineLength(s) && cut == n + TerminatorLength(s, n)
    ensures LineLength(all) == n + 1 && cut + 1 == n + 1 + TerminatorLength(all, n + 1)
    ensures all[..n + 1] == [c] + s[..n] && all[cut + 1..] == s[cut..]
  {
    assert all[1..] == s;
  }

  /** Reading in text mode does not change the lines. */
  lemma {:induction false} TextModeKeepsLines(raw: string)
    ensures SplitLines(UniversalNewlines(raw)) == SplitLines(raw)
    ensures UniversalNewlines(raw) == "" <==> raw == ""
    decreases |raw|
  {
    if raw != "" {
      if !IsBoundary(raw[0]) {
        TextModeKeepsLines(raw[1..]);
        assert raw == [raw[0]] + raw[1..];
        MoreOnFirstLine(raw[0], raw[1..], raw);
        MoreOnFirstLine(raw[0], UniversalNewlines(raw[1..]), UniversalNewlines(raw));
      } else {
        TerminatorFirst(raw);
        TerminatorFirst(UniversalNewlines(raw));
        var t := TerminatorLength(raw, 0);
        TextModeKeepsLines(raw[t..]);
        assert UniversalNewlines(raw)[1..] == UniversalNewlines(raw[t..]);
      }
    }
  }

  // ---------- Prefixes ----------

  predicate StartsWith(s: string, p: string) {
    |p| <= |s| && s[..|p|] == p
  }

  lemma AfterPrefix<T>(p: seq<T>, s: seq<T>)
    ensures |p| <= |p + s| && (p + s)[..|p|] == p && (p + s)[|p|..] == s
    ensures p == [] ==> p + s == s
  {
  }

  lemma AfterSuffix<T>(s: seq<T>)
    ensures s + [] == s
  {
  }

  lemma ConcatAssoc<T>(a: seq<T>, b: seq<T>, c: seq<T>)
    ensures (a + b) + c == a + (b + c)
  {
  }

  predicate EndsWithNewline(s: string) {
    s != "" && s[|s| - 1] == '\n'
  }

  /** The whitespace of `str.strip` and of `\s` in a pattern. */
  predicate IsSpace(c: char) {
    '\t' <= c <= '\r' || '\U{1C}' <= c <= ' ' || c == '\U{85}' || c == '\U{A0}' || c == '\U{1680}' ||
    '\U{2000}' <= c <= '\U{200A}' || '\U{2028}' <= c <= '\U{2029}' || c == '\U{202F}' || c == '\U{205F}' || c == '\U{3000}'
  }

  function StripLeft(s: string): (t: string)
    ensures t == "" || !IsSpace(t[0])
    ensures |t| <= |s| && t == s[|s| - |t|..]
    ensures s != "" && !IsSpace(s[0]) ==> t == s
  {
    if s != "" && IsSpace(s[0]) then StripLeft(s[1..]) else s
  }

  function StripRight(s: string): (t: string)
    ensures t == "" || !IsSpace(t[|t| - 1])
    ensures |t| <= |s| && t == s[..|t|]
    ensures s != "" && !IsSpace(s[|s| - 1]) ==> t == s
  {
    if s != "" && IsSpace(s[|s| - 1]) then StripRight(s[..|s| - 1]) else s
  }

  /** `s.strip()` */
  function Strip(s: string): (t: string)
    ensures |t| <= |s| && (|t| == |s| ==> t == s)
    ensures t == "" || (!IsSpace(t[0]) && !IsSpace(t[|t| - 1]))
    ensures s == "" || (!IsSpace(s[0]) && !IsSpace(s[|s| - 1])) ==> t == s
  {
    StripLeft(StripRight(s))
  }

  predicate AllSpace(s: string) {
    forall k | 0 <= k < |s| :: IsSpace(s[k])
  }

  /** Text that neither starts nor ends in space. */
  predicate SolidEnds(s: string) {
    s == "" || (!IsSpace(s[0]) && !IsSpace(s[|s| - 1]))
  }

  lemma {:induction false} StripRightOf(s: string, after: string)
    requires AllSpace(after) && SolidEnds(s) && s != ""
    ensures StripRight(s + after) == s
  {
    if after == "" {
      AfterSuffix(s);
    } else {
      var t := s + after;
      assert t[|t| - 1] == after[|after| - 1] && t[..|t| - 1] == s + after[..|after| - 1];
      StripRightOf(s, after[..|after| - 1]);
    }
  }

  lemma {:induction false} StripLeftOf(before: string, s: string)
    requires AllSpace(before) && SolidEnds(s)
    ensures StripLeft(before + s) == s
  {
    if before == "" {
      AfterPrefix("", s);
    } else {
      assert (before + s)[0] == before[0] && (before + s)[1..] == before[1..] + s;
      StripLeftOf(before[1..], s);
    }
  }

  lemma {:induction false} StripSpace(space: string)
    requires AllSpace(space)
    ensures StripRight(space) == "" && Strip(space) == ""
  {
    if space != "" {
      StripSpace(space[..|space| - 1]);
    }
  }

  /** Stripping takes the space around a text and nothing else. */
  lemma StripOf(before: string, s: string, after: string)
    requires AllSpace(before) && AllSpace(after) && SolidEnds(s)
    ensures Strip(before + s + after) == s
  {
    if s == "" {
      AfterSuffix(before);
      StripSpace(before + after);
    } else if before == "" {
      AfterPrefix("", s);
      StripRightOf(s, after);
    } else {
      StripRightPast(before, s, after);
      StripLeftOf(before, s);
    }
  }

  lemma {:induction false} StripRightPast(before: string, s: string, after: string)
    requires AllSpace(after) && SolidEnds(s) && s != ""
    ensures StripRight(before + s + after) == before + s
  {
    var t := before + s + after;
    if after == "" {
      AfterSuffix(before + s);
      assert (before + s)[|before + s| - 1] == s[|s| - 1];
    } else {
      assert t[|t| - 1] == after[|after| - 1] && t[..|t| - 1] == before + s + after[..|after| - 1];
      StripRightPast(before, s, after[..|after| - 1]);
    }
  }

  // ---------- Decimal numbers ----------

  predicate IsDigit(c: char) {
    '0' <= c <= '9'
  }

  function Digit(n: nat): (c: char)
    requires n < 10
    ensures IsDigit(c) && c as int - '0' as int == n
  {
    ('0' as int + n) as char
  }

  ghost predicate AllDigits(s: string) {
    forall k | 0 <= k < |s| :: IsDigit(s[k])
  }

  /** `str(n)` */
  function Decimal(n: nat): (s: string)
    ensures s != "" && AllDigits(s)
  {
    if n < 10 then [Digit(n)] else Decimal(n / 10) + [Digit(n % 10)]
  }

  /** `int(s)` for a run of digits */
  function DecimalValue(s: string): nat
    requires AllDigits(s)
  {
    if s == "" then 0 else DecimalValue(s[..|s| - 1]) * 10 + (s[|s| - 1] as int - '0' as int)
  }

  lemma {:induction false} DecimalRoundTrip(n: nat)
    ensures DecimalValue(Decimal(n)) == n
  {
    var s := Decimal(n);
    if n < 10 {
      assert s[..|s| - 1] == "";
    } else {
      DecimalRoundTrip(n / 10);
      assert s[..|s| - 1] == Decimal(n / 10);
    }
  }

  /** How many digits `s` starts with. */
  function DigitRun(s: string): (n: nat)
    ensures n <= |s|
    ensures AllDigits(s[..n])
    ensures n < |s| ==> !IsDigit(s[n])
  {
    if s == "" || !IsDigit(s[0]) then 0 else 1 + DigitRun(s[1..])
  }

  lemma DigitRunOf(digits: string, rest: string)
    requires AllDigits(digits)
    requires rest == "" || !IsDigit(rest[0])
    ensures DigitRun(digits + rest) == |digits|
  {
    var s := digits + rest;
    assert forall k | 0 <= k < |digits| :: s[k] == digits[k];
    assert rest != "" ==> s[|digits|] == rest[0];
    var n := DigitRun(s);
    assert forall k | 0 <= k < n :: s[k] == s[..n][k];
  }
}
