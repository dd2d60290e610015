/** Updating env files whose lines end in any of the ways `splitlines` knows, not in newlines alone
    (scripts/env_writer.py). */
module EnvFileEnds {
  import opened Text
  import opened EnvLine
  import opened EnvFile
  import opened EnvFileMeaning
  import opened EnvFileStructure

  // ---------- Lines ----------

  predicate HasEnd(line: string) {
    line != "" && IsBoundary(line[|line| - 1])
  }

  /** Lines as they are cut from text without `\r`: only the last may lack its end. */
  ghost predicate EndedLines(lines: seq<string>) {
    forall k | 0 <= k < |lines| :: EndedLine(lines[k]) && (k + 1 < |lines| ==> HasEnd(lines[k]))
  }

  lemma EndedFirst(line: string, rest: seq<string>)
    requires EndedLine(line) && EndedLines(rest) && (rest != [] ==> HasEnd(line))
    ensures EndedLines([line] + rest)
  {
  }

  lemma EndedAppend(a: seq<string>, b: seq<string>)
    requires EndedLines(a) && EndedLines(b) && (a != [] && b != [] ==> HasEnd(a[|a| - 1]))
    ensures EndedLines(a + b)
  {
  }

  lemma CutFirst(line: string, end: char, rest: string, s: string)
    requires OneLine(line) && IsBoundary(end) && end != '\r' && s == (line + [end]) + rest
    ensures SplitKeepEnds(s) == [line + [end]] + SplitKeepEnds(rest)
  {
    ConcatAssoc(line, [end], rest);
    LineLengthOf(line, [end] + rest);
    assert s[|line|] == end && s[..|line| + 1] == line + [end] && s[|line| + 1..] == rest;
  }

  /** Text read in text mode is cut into such lines. */
  lemma {:induction false} SplitIsEnded(s: string)
    requires '\r' !in s
    ensures EndedLines(SplitKeepEnds(s))
    decreases |s|
  {
    if s == "" {
    } else if OneLine(s) {
      SplitLast(s);
      LastNoReturn(s);
    } else {
      var n := LineLength(s);
      CutParts(s, n);
      CutFirst(s[..n], s[n], s[n + 1..], s);
      SplitIsEnded(s[n + 1..]);
      EndedByEnd(s[..n], s[n]);
      EndedFirst(s[..n] + [s[n]], SplitKeepEnds(s[n + 1..]));
    }
  }

  lemma CutParts(s: string, n: nat)
    requires n == LineLength(s) && !OneLine(s)
    ensures n < |s| && IsBoundary(s[n]) && s == (s[..n] + [s[n]]) + s[n + 1..]
  {
    LineEndsBefore(s, n);
    CutAt(s, n);
  }

  lemma LineEndsBefore(s: string, n: nat)
    requires n <= |s| && OneLine(s[..n]) && !OneLine(s)
    ensures n < |s|
  {
    assert s[..|s|] == s;
  }

  lemma CutAt(s: string, n: nat)
    requires n < |s|
    ensures s == (s[..n] + [s[n]]) + s[n + 1..]
  {
  }

  lemma LastNoReturn(s: string)
    requires s != "" && OneLine(s)
    ensures EndedLine(s)
  {
  }

  lemma EndedByEnd(line: string, end: char)
    requires OneLine(line) && IsBoundary(end) && end != '\r'
    ensures EndedLine(line + [end]) && HasEnd(line + [end])
  {
    assert (line + [end])[..|line|] == line;
  }

  /** And read back from the text they make. */
  lemma {:induction false} SplitOfEnded(lines: seq<string>)
    requires EndedLines(lines)
    ensures SplitKeepEnds(Concat(lines)) == lines
  {
    if lines != [] {
      var line, rest := lines[0], lines[1..];
      SplitOfEnded(rest);
      if HasEnd(line) {
        var n := |line| - 1;
        assert line == line[..n] + [line[n]];
        CutFirst(line[..n], line[n], Concat(rest), Concat(lines));
      } else {
        AllOnOneLine(line);
        AfterSuffix(line);
        SplitLast(line);
      }
    }
  }

  lemma AllOnOneLine(line: string)
    requires EndedLine(line) && !HasEnd(line)
    ensures OneLine(line)
  {
    assert forall k | 0 <= k < |line| - 1 :: line[k] == line[..|line| - 1][k];
  }

  // ---------- What is rewritten ----------

  /** Line k is given a new value: it is the first to assign its key, the key is requested, and its value is
      not preserved. Keys in `seen` were assigned before. */
  predicate Rewritten(lines: seq<string>, k: nat, seen: set<string>, updates: seq<Entry>, preserve: bool, syntax: Syntax)
    requires k < |lines|
  {
    var read := syntax.read(lines[k]);
    && read.Some?
    && read.value.key !in seen && FirstOf(lines[..k], read.value.key, syntax) == None
    && Lookup(updates, read.value.key).Some? && !(preserve && read.value.value != "")
  }

  /** Every rewritten line ends in a newline, or is the last. */
  ghost predicate RewritesEnd(lines: seq<string>, seen: set<string>, updates: seq<Entry>, preserve: bool, syntax: Syntax) {
    forall k | 0 <= k < |lines| - 1 && Rewritten(lines, k, seen, updates, preserve, syntax) :: EndsWithNewline(lines[k])
  }

  function KeySeen(line: string, seen: set<string>, syntax: Syntax): set<string> {
    if syntax.read(line).Some? then seen + {syntax.read(line).value.key} else seen
  }

  lemma FirstOfRest(lines: seq<string>, k: nat, q: string, syntax: Syntax)
    requires 0 < k <= |lines|
    ensures FirstOf(lines[..k], q, syntax) ==
            if Given(lines[0], q, syntax).Some? then Given(lines[0], q, syntax) else FirstOf(lines[1..][..k - 1], q, syntax)
  {
    assert lines[..k][1..] == lines[1..][..k - 1];
  }

  lemma RewritesRest(lines: seq<string>, seen: set<string>, updates: seq<Entry>, preserve: bool, syntax: Syntax)
    requires lines != [] && RewritesEnd(lines, seen, updates, preserve, syntax)
    ensures RewritesEnd(lines[1..], KeySeen(lines[0], seen, syntax), updates, preserve, syntax)
  {
    var rest, now := lines[1..], KeySeen(lines[0], seen, syntax);
    forall k | 0 <= k < |rest| - 1 && Rewritten(rest, k, now, updates, preserve, syntax)
      ensures EndsWithNewline(rest[k])
    {
      FirstOfRest(lines, k + 1, syntax.read(rest[k]).value.key, syntax);
      assert Rewritten(lines, k + 1, seen, updates, preserve, syntax);
    }
  }

  lemma ScanSees(line: string, st: Scan, preserve: bool, syntax: Syntax)
    ensures ScanLine(line, st, preserve, syntax).1.seen == KeySeen(line, st.seen, syntax)
  {
  }

  /** The line left has an end when the line had one, unless it was rewritten without a newline. */
  lemma LineLeft(lines: seq<string>, st: Scan, updates: seq<Entry>, preserve: bool, syntax: Syntax)
    requires lines != [] && Lawful(syntax) && EndedLine(lines[0]) && Writable(st.pending, syntax)
    requires InStep(st, updates)
    ensures var left := ScanLine(lines[0], st, preserve, syntax).0;
      && (left == "" || EndedLine(left))
      && (left != "" && !Rewritten(lines, 0, st.seen, updates, preserve, syntax) ==> left == lines[0])
      && (left != "" && EndsWithNewline(lines[0]) ==> EndsWithNewline(left))
  {
    LineCanBeRewritten(lines[0], st, syntax);
    var left := ScanLine(lines[0], st, preserve, syntax).0;
    assert lines[..0] == [];
    if left != "" && left != lines[0] {
      PlainIsEnded(left);
    }
  }

  lemma EndedCons(line: string, rest: seq<string>)
    requires line == "" || (EndedLine(line) && (rest != [] ==> HasEnd(line)))
    requires EndedLines(rest)
    ensures EndedLines(Cons(line, rest))
  {
  }

  /** The lines kept are cut where they end. */
  lemma {:induction false} ScanEnded(lines: seq<string>, st: Scan, updates: seq<Entry>, preserve: bool, syntax: Syntax)
    requires Lawful(syntax) && EndedLines(lines) && Writable(st.pending, syntax) && InStep(st, updates)
    requires RewritesEnd(lines, st.seen, updates, preserve, syntax)
    ensures var (kept, s2) := ScanLines(lines, st, preserve, syntax);
      EndedLines(kept) && |kept| <= |lines| && Writable(s2.pending, syntax)
    decreases |lines|
  {
    if lines != [] {
      var (left, s1) := ScanLine(lines[0], st, preserve, syntax);
      LineLeft(lines, st, updates, preserve, syntax);
      StillWritable(lines[0], st, preserve, syntax);
      StaysInStep(lines[0], st, updates, preserve, syntax);
      ScanSees(lines[0], st, preserve, syntax);
      RewritesRest(lines, st.seen, updates, preserve, syntax);
      ScanEnded(lines[1..], s1, updates, preserve, syntax);
      EndedCons(left, ScanLines(lines[1..], s1, preserve, syntax).0);
    }
  }

  // ---------- The end of the file ----------

  /** The kept lines when something is to follow, as they are read again: the newline added to a last line that
      ends otherwise is a line of its own. */
  function Reopened(kept: seq<string>): seq<string> {
    if kept == [] || EndsWithNewline(kept[|kept| - 1]) then kept
    else if HasEnd(kept[|kept| - 1]) then kept + ["\n"]
    else kept[..|kept| - 1] + [kept[|kept| - 1] + "\n"]
  }

  lemma {:induction false} ConcatAppend(a: seq<string>, b: seq<string>)
    ensures Concat(a + b) == Concat(a) + Concat(b)
  {
    if a == [] {
      AfterPrefix([], b);
    } else {
      assert (a + b)[0] == a[0] && (a + b)[1..] == a[1..] + b;
      ConcatAppend(a[1..], b);
      ConcatAssoc(a[0], Concat(a[1..]), Concat(b));
    }
  }

  lemma ReopenedText(kept: seq<string>)
    ensures Concat(Reopened(kept)) == Concat(Closed(kept))
  {
    if kept != [] && !EndsWithNewline(kept[|kept| - 1]) && HasEnd(kept[|kept| - 1]) {
      var body, last := kept[..|kept| - 1], kept[|kept| - 1];
      assert kept == body + [last];
      ConcatAppend(kept, ["\n"]);
      ConcatAppend(body, [last]);
      ConcatAppend(body, [last + "\n"]);
      ConcatOne("\n");
      ConcatOne(last);
      ConcatOne(last + "\n");
      ConcatAssoc(Concat(body), last, "\n");
    }
  }

  lemma ReopenedEnds(kept: seq<string>)
    requires EndedLines(kept)
    ensures var r := Reopened(kept);
      EndedLines(r) && (r != [] ==> HasEnd(r[|r| - 1]))
  {
    if kept != [] && !EndsWithNewline(kept[|kept| - 1]) {
      EndedByEnd("", '\n');
      assert "" + ['\n'] == "\n";
      if HasEnd(kept[|kept| - 1]) {
        EndedAppend(kept, ["\n"]);
      } else {
        AllOnOneLine(kept[|kept| - 1]);
        EndedByEnd(kept[|kept| - 1], '\n');
        EndedAppend(kept[..|kept| - 1], [kept[|kept| - 1] + "\n"]);
      }
    }
  }

  lemma ReopenedMeaning(kept: seq<string>, q: string, syntax: Syntax)
    requires Lawful(syntax) && EndedLines(kept)
    ensures LastOf(Reopened(kept), q, syntax) == LastOf(kept, q, syntax)
  {
    if kept != [] && !EndsWithNewline(kept[|kept| - 1]) {
      var last := kept[|kept| - 1];
      if HasEnd(last) {
        AfterPrefix("", "\n");
        assert syntax.read("" + "\n") == syntax.read("");
        AppendOne(kept, "\n", q, syntax);
      } else {
        AllOnOneLine(last);
        assert syntax.read(last + "\n") == syntax.read(last);
        assert kept == kept[..|kept| - 1] + [last];
        AppendOne(kept[..|kept| - 1], last, q, syntax);
        AppendOne(kept[..|kept| - 1], last + "\n", q, syntax);
      }
    }
  }

  lemma AppendOne(lines: seq<string>, line: string, q: string, syntax: Syntax)
    ensures LastOf(lines + [line], q, syntax) ==
            if Given(line, q, syntax).Some? then Given(line, q, syntax) else LastOf(lines, q, syntax)
  {
    LastOfAppend(lines, [line], q, syntax);
    assert [line][1..] == [];
  }

  lemma AppendedEnds(pending: seq<Entry>, syntax: Syntax)
    requires Lawful(syntax) && Writable(pending, syntax)
    ensures EndedLines(Appended(pending, syntax))
  {
    var lines := Appended(pending, syntax);
    AppendedShape(pending, syntax);
    forall k | 0 <= k < |lines|
      ensures EndedLine(lines[k]) && HasEnd(lines[k])
    {
      PlainIsEnded(lines[k]);
    }
  }

  // ---------- The meaning of an update ----------

  /** The lines the written text is read as. */
  function ReadAgain(kept: seq<string>, pending: seq<Entry>, syntax: Syntax): seq<string> {
    if pending == [] then kept else Reopened(kept) + Appended(pending, syntax)
  }

  lemma WrittenIsReadAgain(kept: seq<string>, pending: seq<Entry>, syntax: Syntax)
    requires Lawful(syntax) && EndedLines(kept) && Writable(pending, syntax)
    ensures SplitKeepEnds(Concat(Finish(kept, pending, syntax))) == ReadAgain(kept, pending, syntax)
    ensures EndedLines(ReadAgain(kept, pending, syntax))
    ensures Concat(ReadAgain(kept, pending, syntax)) == Concat(Finish(kept, pending, syntax))
  {
    if pending != [] {
      var added := Appended(pending, syntax);
      ReopenedText(kept);
      ReopenedEnds(kept);
      AppendedEnds(pending, syntax);
      EndedAppend(Reopened(kept), added);
      ConcatAppend(Reopened(kept), added);
      ConcatAppend(Closed(kept), added);
    }
    SplitOfEnded(ReadAgain(kept, pending, syntax));
  }

  /** Whatever ends the lines of the files: when each rewritten line ends in a newline or is the last, loading
      what is stored gives a requested key its new value, or the first old one if that is preserved, and every
      other key its first old value. */
  lemma EndedUpdateMeaning(env: Option<string>, example: Option<string>, updates: seq<Entry>, q: string,
      preserve: bool, eval: string -> Literal)
    requires Requests(updates) && RewritesEnd(LoadLines(env, example), {}, updates, preserve, EnvSyntax(eval))
    ensures var u := Updated(LoadLines(env, example), updates, preserve, EnvSyntax(eval));
      LastOf(LoadLines(Some(Concat(u.lines)), None), q, EnvSyntax(eval)) ==
      Resolved(FirstOf(LoadLines(env, example), q, EnvSyntax(eval)), Lookup(updates, q), preserve)
  {
    var lines := LoadLines(env, example);
    SplitIsEnded(UniversalNewlines(Source(env, example)));
    EnvIsLawful(eval);
    RequestsAreWritable(updates, eval);
    EndedMeaning(lines, updates, q, preserve, EnvSyntax(eval));
  }

  lemma EndedMeaning(lines: seq<string>, updates: seq<Entry>, q: string, preserve: bool, syntax: Syntax)
    requires Lawful(syntax) && EndedLines(lines) && Writable(updates, syntax) && DistinctKeys(updates)
    requires RewritesEnd(lines, {}, updates, preserve, syntax)
    ensures var u := Updated(lines, updates, preserve, syntax).lines;
      LastOf(LoadLines(Some(Concat(u)), None), q, syntax) ==
      Resolved(FirstOf(lines, q, syntax), Lookup(updates, q), preserve)
  {
    var (kept, st) := ScanLines(lines, Start(updates), preserve, syntax);
    ScanEnded(lines, Start(updates), updates, preserve, syntax);
    ScanKey(lines, Start(updates), q, preserve, syntax);
    ScanDistinct(lines, Start(updates), preserve, syntax);
    WrittenIsReadAgain(kept, st.pending, syntax);
    NoReturns(ReadAgain(kept, st.pending, syntax));
    UniversalNewlinesFixes(Concat(ReadAgain(kept, st.pending, syntax)));
    ReadAgainMeaning(kept, st.pending, q, syntax);
  }

  lemma ReadAgainMeaning(kept: seq<string>, pending: seq<Entry>, q: string, syntax: Syntax)
    requires Lawful(syntax) && EndedLines(kept) && Writable(pending, syntax) && DistinctKeys(pending)
    ensures LastOf(ReadAgain(kept, pending, syntax), q, syntax) ==
            if Lookup(pending, q).Some? then Lookup(pending, q) else LastOf(kept, q, syntax)
  {
    if pending != [] {
      ReopenedMeaning(kept, q, syntax);
      AppendedMeaning(pending, q, syntax);
      LastOfAppend(Reopened(kept), Appended(pending, syntax), q, syntax);
    }
  }

  lemma {:induction false} NoReturns(lines: seq<string>)
    requires EndedLines(lines)
    ensures '\r' !in Concat(lines)
  {
    if lines != [] {
      NoReturns(lines[1..]);
      NoReturn(lines[0]);
    }
  }

  lemma NoReturn(line: string)
    requires EndedLine(line)
    ensures '\r' !in line
  {
    assert forall k | 0 <= k < |line| - 1 :: line[k] == line[..|line| - 1][k];
  }

  // ---------- A rewritten line that ends otherwise ----------

  /** Two lines of which the first is rewritten. */
  lemma FirstOfTwoRewritten(a: string, b: string, key: string, other: string, v: string, syntax: Syntax)
    requires syntax.read(a) == Some(Assigned("", key, "")) && syntax.read(b) == Some(Assigned("", other, ""))
    requires key != other && !EndsWithNewline(a) && b != "" && syntax.write("", key, v, false) != ""
    ensures Updated([a, b], [Entry(key, v)], false, syntax).lines == [syntax.write("", key, v, false), b]
  {
    var s0 := Start([Entry(key, v)]);
    var (left, s1) := ScanLine(a, s0, false, syntax);
    assert [Entry(key, v)][1..] == [];
    assert s1.pending == [] && left == syntax.write("", key, v, false);
    ScanOne(b, s1, other, syntax);
    assert [a, b][1..] == [b];
  }

  lemma ScanOne(b: string, st: Scan, other: string, syntax: Syntax)
    requires syntax.read(b) == Some(Assigned("", other, "")) && st.pending == [] && other !in st.seen && b != ""
    ensures ScanLines([b], st, false, syntax).0 == [b] && ScanLines([b], st, false, syntax).1.pending == []
  {
    assert [b][1..] == [];
    assert ScanLine(b, st, false, syntax).0 == b;
  }

  /** A line without a value reads as its key, whatever ends it. */
  lemma EmptyAtNewline(key: string, line: string, eval: string -> Literal)
    requires IsKey(key) && line == key + ("=" + "\n")
    ensures ReadLine(line, eval) == Some(Assigned("", key, ""))
  {
    StripSolid("");
    BareAssigned(key, "", eval);
    NewlineAfter(key);
  }

  lemma NewlineAfter(key: string)
    ensures key + ("=" + "") + "\n" == key + ("=" + "\n")
  {
  }

  lemma EmptyAtFormFeed(key: string, line: string, eval: string -> Literal)
    requires IsKey(key) && line == key + ("=" + "\U{0C}")
    ensures ReadLine(line, eval) == Some(Assigned("", key, "")) && !EndsWithNewline(line)
  {
    FormFeedParts(key, line);
    BlankValue(eval);
    ReadsWhole(line, key, "\U{0C}", eval);
  }

  lemma FormFeedParts(key: string, line: string)
    requires IsKey(key) && line == key + ("=" + "\U{0C}")
    ensures !EndsWithNewline(line) && MatchBody(line) == Some(Assignment("", key)) && AfterEquals(line) == "\U{0C}"
  {
    EmptyPrefix(key);
    ReadsLine("", key, "\U{0C}");
    AfterPrefix("", line);
    KeyHasNoEquals(key);
    AfterEqualsOf(key, "\U{0C}");
    assert line[|line| - 1] == '\U{0C}';
  }

  lemma ReadsWhole(line: string, key: string, tail: string, eval: string -> Literal)
    requires !EndsWithNewline(line) && MatchBody(line) == Some(Assignment("", key)) && AfterEquals(line) == tail
    ensures ReadLine(line, eval) == Some(Assigned("", key, DecodeValue(Strip(tail), eval)))
  {
  }

  lemma BlankValue(eval: string -> Literal)
    ensures DecodeValue(Strip("\U{0C}"), eval) == ""
  {
    assert IsSpace("\U{0C}"[0]) && "\U{0C}"[..0] == "";
    assert StripRight("\U{0C}") == "";
  }

  lemma BareAssigned(key: string, tail: string, eval: string -> Literal)
    requires IsKey(key) && OneLine(tail) && DecodeValue(Strip(tail), eval) == tail
    ensures ReadLine(key + ("=" + tail) + "\n", eval) == Some(Assigned("", key, tail))
  {
    BareParts(key, tail);
    BareRead(key + ("=" + tail), key, tail, eval);
  }

  /** The form feed is lost with the old value, and the next line becomes part of the new one. */
  lemma FormFeedJoinsLines(key: string, other: string, v: string, eval: string -> Literal)
    requires IsKey(key) && IsKey(other) && key != other && AllSafe(v) && v != ""
    ensures var text := (key + ("=" + "\U{0C}")) + (other + ("=" + "\n"));
      var written := UpdatedText(text, [Entry(key, v)], false, eval);
      && LastOf(SplitKeepEnds(text), other, EnvSyntax(eval)) == Some("")
      && LastOf(SplitKeepEnds(written), key, EnvSyntax(eval)) == Some(v + (other + "="))
      && LastOf(SplitKeepEnds(written), other, EnvSyntax(eval)) == None
  {
    var a, b := key + ("=" + "\U{0C}"), other + ("=" + "\n");
    LinesRead(key, other, a, b, eval);
    TwoEnds(key, other, a, b);
    JoinedText(key, other, v, b, eval);
    TwoAsRead(a, b, key, other, v, a + b, EnvSyntax(eval));
    JoinedReads(key, other, v, key + ("=" + (v + (other + "="))) + "\n", eval);
  }

  lemma LinesRead(key: string, other: string, a: string, b: string, eval: string -> Literal)
    requires IsKey(key) && IsKey(other) && a == key + ("=" + "\U{0C}") && b == other + ("=" + "\n")
    ensures EnvSyntax(eval).read(a) == Some(Assigned("", key, "")) && !EndsWithNewline(a)
    ensures EnvSyntax(eval).read(b) == Some(Assigned("", other, "")) && b != ""
  {
    EmptyAtFormFeed(key, a, eval);
    EmptyAtNewline(other, b, eval);
  }

  lemma TwoAsRead(a: string, b: string, key: string, other: string, v: string, text: string, syntax: Syntax)
    requires syntax.read(a) == Some(Assigned("", key, "")) && syntax.read(b) == Some(Assigned("", other, ""))
    requires key != other && !EndsWithNewline(a) && b != "" && syntax.write("", key, v, false) != ""
    requires SplitKeepEnds(text) == [a, b]
    ensures LastOf(SplitKeepEnds(text), other, syntax) == Some("")
    ensures Updated(SplitKeepEnds(text), [Entry(key, v)], false, syntax).lines == [syntax.write("", key, v, false), b]
  {
    LastOfTwo(a, b, other, syntax);
    FirstOfTwoRewritten(a, b, key, other, v, syntax);
  }

  lemma TwoEnds(key: string, other: string, a: string, b: string)
    requires IsKey(key) && IsKey(other) && a == key + ("=" + "\U{0C}") && b == other + ("=" + "\n")
    ensures SplitKeepEnds(a + b) == [a, b]
  {
    var first, second := key + "=", other + "=";
    KeyHasNoEquals(key);
    KeyHasNoEquals(other);
    OneLineConcat(key, "=");
    OneLineConcat(other, "=");
    assert a == first + ['\U{0C}'] && b == second + ['\n'];
    CutFirst(first, '\U{0C}', b, a + b);
    AfterSuffix(b);
    CutFirst(second, '\n', "", b);
    assert SplitKeepEnds("") == [];
    AfterSuffix([b]);
  }

  lemma JoinedText(key: string, other: string, v: string, b: string, eval: string -> Literal)
    requires AllSafe(v) && v != "" && b == other + ("=" + "\n")
    ensures EnvSyntax(eval).write("", key, v, false) != ""
    ensures Concat([EnvSyntax(eval).write("", key, v, false), b]) == key + ("=" + (v + (other + "="))) + "\n"
  {
    var w := RenderLine("", key, v, false);
    AfterPrefix("", key + ("=" + v));
    assert [w, b][1..] == [b];
    ConcatOne(b);
    assert (key + ("=" + v)) + (other + ("=" + "\n")) == key + ("=" + (v + (other + "="))) + "\n";
  }

  lemma JoinedReads(key: string, other: string, v: string, line: string, eval: string -> Literal)
    requires IsKey(key) && IsKey(other) && key != other && AllSafe(v) && v != ""
    requires line == key + ("=" + (v + (other + "="))) + "\n"
    ensures LastOf(SplitKeepEnds(line), key, EnvSyntax(eval)) == Some(v + (other + "="))
    ensures LastOf(SplitKeepEnds(line), other, EnvSyntax(eval)) == None
  {
    var tail := v + (other + "=");
    JoinedTail(v, other, tail, eval);
    BareAssigned(key, tail, eval);
    BareParts(key, tail);
    OnlyLine(key + ("=" + tail), key, other, tail, EnvSyntax(eval));
  }

  lemma OnlyLine(bare: string, key: string, other: string, v: string, syntax: Syntax)
    requires OneLine(bare) && key != other && syntax.read(bare + "\n") == Some(Assigned("", key, v))
    ensures LastOf(SplitKeepEnds(bare + "\n"), key, syntax) == Some(v)
    ensures LastOf(SplitKeepEnds(bare + "\n"), other, syntax) == None
  {
    var line := bare + "\n";
    AfterSuffix(line);
    SplitFirst(bare, "");
    assert SplitKeepEnds("") == [];
    AfterSuffix([line]);
    assert [line][1..] == [];
  }

  lemma JoinedTail(v: string, other: string, tail: string, eval: string -> Literal)
    requires IsKey(other) && AllSafe(v) && v != "" && tail == v + (other + "=")
    ensures OneLine(tail) && DecodeValue(Strip(tail), eval) == tail
  {
    SafeEscapes(v);
    KeyHasNoEquals(other);
    OneLineConcat(other, "=");
    OneLineConcat(v, other + "=");
    SafeIsPlain(v[0]);
    assert tail[0] == v[0] && tail[|tail| - 1] == '=';
    StripSolid(tail);
  }
}
