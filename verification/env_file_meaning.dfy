/** What one rewrite of an env file does to the values it loads as, and to the rest of the file
    (scripts/env_writer.py). */
module EnvFileMeaning {
  import opened Text
  import opened EnvLine
  import opened EnvFile

  // ---------- Dictionaries ----------

  lemma {:induction false} LookupWithout(d: seq<Entry>, key: string, q: string)
    ensures Lookup(Without(d, key), q) == if q == key then None else Lookup(d, q)
  {
    if d != [] {
      LookupWithout(d[1..], key, q);
      if d[0].key != key {
        assert ([d[0]] + Without(d[1..], key))[1..] == Without(d[1..], key);
      } else {
        assert [] + Without(d[1..], key) == Without(d[1..], key);
      }
    }
  }

  /** What can be looked up may be written. */
  lemma {:induction false} LookupIsClean(d: seq<Entry>, q: string, syntax: Syntax)
    requires Writable(d, syntax) && Lookup(d, q).Some?
    ensures CleanValue(Lookup(d, q).value) && syntax.fits("", q)
  {
    if d[0].key != q {
      LookupIsClean(d[1..], q, syntax);
    }
  }

  ghost predicate Writable(d: seq<Entry>, syntax: Syntax) {
    forall k | 0 <= k < |d| :: syntax.fits("", d[k].key) && CleanValue(d[k].value)
  }

  lemma {:induction false} WritableWithout(d: seq<Entry>, key: string, syntax: Syntax)
    requires Writable(d, syntax)
    ensures Writable(Without(d, key), syntax)
  {
    if d != [] {
      WritableWithout(d[1..], key, syntax);
    }
  }

  // ---------- One line ----------

  /** The value a key ends up with, from its first value and the requested one. */
  function Resolved(first: Option<string>, request: Option<string>, preserve: bool): Option<string> {
    match first
    case None => request
    case Some(v) =>
      match request
      case None => first
      case Some(w) => if preserve && v != "" then first else request
  }

  /** What is known of a line the pass meets: a new value for its key can be written and read back. */
  ghost predicate CanRewrite(line: string, st: Scan, syntax: Syntax) {
    && syntax.read("") == None
    && (syntax.read(line).Some? ==>
          var a := syntax.read(line).value;
          Lookup(st.pending, a.key).Some? ==>
            ReadsBack(syntax, a.prefix, a.key, Lookup(st.pending, a.key).value, EndsWithNewline(line)))
  }

  lemma LineCanBeRewritten(line: string, st: Scan, syntax: Syntax)
    requires Lawful(syntax) && EndedLine(line) && Writable(st.pending, syntax)
    ensures CanRewrite(line, st, syntax)
  {
    if syntax.read(line).Some? {
      var a := syntax.read(line).value;
      if Lookup(st.pending, a.key).Some? {
        LookupIsClean(st.pending, a.key, syntax);
        assert ReadsBack(syntax, a.prefix, a.key, Lookup(st.pending, a.key).value, EndsWithNewline(line));
      }
    }
  }

  /** What one line does for the key `q`. */
  lemma ScanLineKey(line: string, st: Scan, q: string, preserve: bool, syntax: Syntax)
    requires CanRewrite(line, st, syntax)
    ensures var (left, s1) := ScanLine(line, st, preserve, syntax);
      && (q in s1.seen <==> q in st.seen || Given(line, q, syntax).Some?)
      && (q !in st.seen && Given(line, q, syntax).Some? ==>
            Lookup(s1.pending, q) == None &&
            Given(left, q, syntax) == Resolved(Given(line, q, syntax), Lookup(st.pending, q), preserve))
      && (q in st.seen || Given(line, q, syntax) == None ==>
            Lookup(s1.pending, q) == Lookup(st.pending, q) && Given(left, q, syntax) == None)
  {
    if syntax.read(line).Some? {
      LookupWithout(st.pending, syntax.read(line).value.key, q);
    }
  }

  /** The line left is nothing, or a line with the ending it had. */
  lemma ScanLineShape(line: string, st: Scan, preserve: bool, syntax: Syntax)
    requires CanRewrite(line, st, syntax) && PlainLine(line) && Writable(st.pending, syntax)
    ensures var (left, s1) := ScanLine(line, st, preserve, syntax);
      && (left == "" || (PlainLine(left) && EndsWithNewline(left) == EndsWithNewline(line)))
      && Writable(s1.pending, syntax)
      && (KeyOf(line, syntax) == None ==> left == line)
      && (KeyOf(line, syntax).Some? && left != "" ==> KeyOf(left, syntax) == KeyOf(line, syntax))
  {
    if syntax.read(line).Some? {
      WritableWithout(st.pending, syntax.read(line).value.key, syntax);
    }
  }

  // ---------- All lines ----------

  lemma LastOfCons(line: string, rest: seq<string>, q: string, syntax: Syntax)
    requires syntax.read("") == None
    ensures LastOf(Cons(line, rest), q, syntax) ==
            if LastOf(rest, q, syntax).Some? then LastOf(rest, q, syntax) else Given(line, q, syntax)
  {
    if line != "" {
      assert ([line] + rest)[0] == line && ([line] + rest)[1..] == rest;
    }
  }

  ghost predicate AllEndedLines(lines: seq<string>) {
    forall k | 0 <= k < |lines| :: EndedLine(lines[k])
  }

  lemma PlainAreEnded(lines: seq<string>)
    requires PlainLines(lines)
    ensures AllEndedLines(lines)
  {
    forall k | 0 <= k < |lines|
      ensures EndedLine(lines[k])
    {
      PlainIsEnded(lines[k]);
    }
  }

  lemma StillWritable(line: string, st: Scan, preserve: bool, syntax: Syntax)
    requires Writable(st.pending, syntax)
    ensures Writable(ScanLine(line, st, preserve, syntax).1.pending, syntax)
  {
    if syntax.read(line).Some? {
      WritableWithout(st.pending, syntax.read(line).value.key, syntax);
    }
  }

  /** What the pass does for the key `q`: nothing once it was seen; else its one line carries the resolved
      value, and the request is used up. */
  lemma {:induction false} ScanKey(lines: seq<string>, st: Scan, q: string, preserve: bool, syntax: Syntax)
    requires Lawful(syntax) && AllEndedLines(lines) && Writable(st.pending, syntax)
    ensures var (kept, s2) := ScanLines(lines, st, preserve, syntax);
      && (q in st.seen || FirstOf(lines, q, syntax) == None ==>
            LastOf(kept, q, syntax) == None && Lookup(s2.pending, q) == Lookup(st.pending, q))
      && (q !in st.seen && FirstOf(lines, q, syntax).Some? ==>
            Lookup(s2.pending, q) == None &&
            LastOf(kept, q, syntax) == Resolved(FirstOf(lines, q, syntax), Lookup(st.pending, q), preserve))
    decreases |lines|
  {
    if lines != [] {
      var (left, s1) := ScanLine(lines[0], st, preserve, syntax);
      LineCanBeRewritten(lines[0], st, syntax);
      ScanLineKey(lines[0], st, q, preserve, syntax);
      StillWritable(lines[0], st, preserve, syntax);
      ScanKey(lines[1..], s1, q, preserve, syntax);
      LastOfCons(left, ScanLines(lines[1..], s1, preserve, syntax).0, q, syntax);
    }
  }

  lemma PlainCons(line: string, rest: seq<string>)
    requires line == "" || (PlainLine(line) && (rest != [] ==> EndsWithNewline(line)))
    requires PlainLines(rest)
    ensures PlainLines(Cons(line, rest))
  {
  }

  lemma {:induction false} ScanShape(lines: seq<string>, st: Scan, preserve: bool, syntax: Syntax)
    requires Lawful(syntax) && PlainLines(lines) && Writable(st.pending, syntax)
    ensures var (kept, s2) := ScanLines(lines, st, preserve, syntax);
      PlainLines(kept) && |kept| <= |lines| && Writable(s2.pending, syntax)
    decreases |lines|
  {
    if lines != [] {
      var (left, s1) := ScanLine(lines[0], st, preserve, syntax);
      PlainIsEnded(lines[0]);
      LineCanBeRewritten(lines[0], st, syntax);
      ScanLineShape(lines[0], st, preserve, syntax);
      ScanShape(lines[1..], s1, preserve, syntax);
      PlainCons(left, ScanLines(lines[1..], s1, preserve, syntax).0);
    }
  }

  // ---------- The end of the file ----------

  lemma {:induction false} AppendedMeaning(pending: seq<Entry>, q: string, syntax: Syntax)
    requires Lawful(syntax) && Writable(pending, syntax) && DistinctKeys(pending)
    ensures LastOf(Appended(pending, syntax), q, syntax) == Lookup(pending, q)
  {
    if pending != [] {
      var first := syntax.write("", pending[0].key, pending[0].value, true);
      assert ReadsBack(syntax, "", pending[0].key, pending[0].value, true);
      AppendedMeaning(pending[1..], q, syntax);
      LastOfCons(first, Appended(pending[1..], syntax), q, syntax);
      LookupNone(pending[1..], q);
    }
  }

  ghost predicate AllEnded(lines: seq<string>) {
    forall k | 0 <= k < |lines| :: PlainLine(lines[k]) && EndsWithNewline(lines[k])
  }

  lemma {:induction false} AppendedShape(pending: seq<Entry>, syntax: Syntax)
    requires Lawful(syntax) && Writable(pending, syntax)
    ensures AllEnded(Appended(pending, syntax))
  {
    if pending != [] {
      assert ReadsBack(syntax, "", pending[0].key, pending[0].value, true);
      AppendedShape(pending[1..], syntax);
    }
  }

  lemma {:induction false} LookupNone(d: seq<Entry>, q: string)
    ensures Lookup(d, q) == None <==> forall k | 0 <= k < |d| :: d[k].key != q
  {
    if d != [] {
      LookupNone(d[1..], q);
    }
  }

  /** A newline at the end of the last line changes no value. */
  lemma ClosedMeaning(kept: seq<string>, q: string, syntax: Syntax)
    requires Lawful(syntax) && PlainLines(kept)
    ensures LastOf(Closed(kept), q, syntax) == LastOf(kept, q, syntax)
  {
    if kept != [] && !EndsWithNewline(kept[|kept| - 1]) {
      var body, last := kept[..|kept| - 1], kept[|kept| - 1];
      assert body + [last] == kept && OneLine(last);
      assert syntax.read(last + "\n") == syntax.read(last);
      assert [last][1..] == [] && [last + "\n"][1..] == [];
      LastOfAppend(body, [last], q, syntax);
      LastOfAppend(body, [last + "\n"], q, syntax);
    }
  }

  lemma PlainAppend(a: seq<string>, b: seq<string>)
    requires PlainLines(a) && PlainLines(b)
    requires a != [] && b != [] ==> EndsWithNewline(a[|a| - 1])
    ensures PlainLines(a + b)
  {
  }

  lemma ClosedShape(kept: seq<string>)
    requires PlainLines(kept)
    ensures PlainLines(Closed(kept)) && (kept != [] ==> EndsWithNewline(Closed(kept)[|kept| - 1]))
    ensures |Closed(kept)| == |kept|
  {
    if kept != [] && !EndsWithNewline(kept[|kept| - 1]) {
      BodyOf(kept[|kept| - 1]);
    }
  }

  lemma {:induction false} WithoutIsPart(d: seq<Entry>, key: string)
    ensures forall k | 0 <= k < |Without(d, key)| :: Without(d, key)[k] in d
  {
    if d != [] {
      WithoutIsPart(d[1..], key);
    }
  }

  lemma {:induction false} DistinctWithout(d: seq<Entry>, key: string)
    requires DistinctKeys(d)
    ensures DistinctKeys(Without(d, key))
  {
    if d != [] {
      DistinctWithout(d[1..], key);
      WithoutIsPart(d[1..], key);
    }
  }

  lemma {:induction false} ScanDistinct(lines: seq<string>, st: Scan, preserve: bool, syntax: Syntax)
    requires DistinctKeys(st.pending)
    ensures DistinctKeys(ScanLines(lines, st, preserve, syntax).1.pending)
    decreases |lines|
  {
    if lines != [] {
      var a := syntax.read(lines[0]);
      if a.Some? {
        DistinctWithout(st.pending, a.value.key);
      }
      ScanDistinct(lines[1..], ScanLine(lines[0], st, preserve, syntax).1, preserve, syntax);
    }
  }

  /** The values after one update, for lines as they come from plain text: a requested key has its new value,
      or keeps a non-empty first value when asked to preserve; every other key has its first old value. */
  lemma UpdatedMeaning(lines: seq<string>, updates: seq<Entry>, q: string, preserve: bool, syntax: Syntax)
    requires Lawful(syntax) && PlainLines(lines) && Writable(updates, syntax) && DistinctKeys(updates)
    ensures var u := Updated(lines, updates, preserve, syntax).lines;
      PlainLines(u) &&
      LastOf(u, q, syntax) == Resolved(FirstOf(lines, q, syntax), Lookup(updates, q), preserve)
  {
    var (kept, st) := ScanLines(lines, Start(updates), preserve, syntax);
    PlainAreEnded(lines);
    ScanKey(lines, Start(updates), q, preserve, syntax);
    ScanShape(lines, Start(updates), preserve, syntax);
    if st.pending != [] {
      ScanDistinct(lines, Start(updates), preserve, syntax);
      AppendedMeaning(st.pending, q, syntax);
      AppendedShape(st.pending, syntax);
      ClosedMeaning(kept, q, syntax);
      ClosedShape(kept);
      PlainAppend(Closed(kept), Appended(st.pending, syntax));
      LastOfAppend(Closed(kept), Appended(st.pending, syntax), q, syntax);
    } else {
      assert Lookup(st.pending, q) == None;
    }
  }

  // ---------- Text ----------

  lemma BodyParts(line: string)
    requires PlainLine(line)
    ensures line == (if EndsWithNewline(line) then Body(line) + "\n" else Body(line))
  {
  }

  /** Lines of plain text are read back from the text they make. */
  lemma {:induction false} SplitOfConcat(lines: seq<string>)
    requires PlainLines(lines)
    ensures SplitKeepEnds(Concat(lines)) == lines
  {
    if lines != [] {
      var line, rest := lines[0], lines[1..];
      SplitOfConcat(rest);
      BodyParts(line);
      if EndsWithNewline(line) {
        SplitFirst(Body(line), Concat(rest));
      } else {
        assert rest == [] && line + "" == line;
        SplitLast(line);
      }
    }
  }

  /** Plain text is one line, or a line, a newline and plain text. */
  lemma CutText(text: string) returns (line: string, rest: string)
    requires PlainText(text) && !OneLine(text)
    ensures OneLine(line) && PlainText(rest) && text == line + "\n" + rest && |rest| < |text|
  {
    var n := LineLength(text);
    assert text[..|text|] == text;
    line, rest := text[..n], text[n + 1..];
  }

  lemma PlainFirst(line: string, rest: seq<string>)
    requires PlainLine(line) && PlainLines(rest) && (rest != [] ==> EndsWithNewline(line))
    ensures PlainLines([line] + rest)
  {
  }

  /** Plain text is cut into such lines. */
  lemma {:induction false} SplitIsPlain(text: string)
    requires PlainText(text)
    ensures PlainLines(SplitKeepEnds(text)) && Concat(SplitKeepEnds(text)) == text
    decreases |text|
  {
    if text == "" {
    } else if OneLine(text) {
      SplitLast(text);
      BodyOf(text);
      ConcatOne(text);
    } else {
      var line, rest := CutText(text);
      SplitFirst(line, rest);
      SplitIsPlain(rest);
      BodyOf(line);
      PlainFirst(line + "\n", SplitKeepEnds(rest));
      AfterPrefix([line + "\n"], SplitKeepEnds(rest));
    }
  }

  lemma ConcatOne(line: string)
    ensures Concat([line]) == line
  {
    assert [line][1..] == [] && line + "" == line;
  }

  /** The text one update leaves, from the text there was. */
  function UpdatedText(text: string, updates: seq<Entry>, preserve: bool, eval: string -> Literal): string {
    Concat(Updated(SplitKeepEnds(text), updates, preserve, EnvSyntax(eval)).lines)
  }

  lemma RequestsAreWritable(updates: seq<Entry>, eval: string -> Literal)
    requires Requests(updates)
    ensures Writable(updates, EnvSyntax(eval))
  {
    forall k | 0 <= k < |updates|
      ensures EnvSyntax(eval).fits("", updates[k].key)
    {
      EmptyPrefix(updates[k].key);
    }
  }

  lemma EmptyPrefix(key: string)
    requires IsKey(key)
    ensures Fits("", key)
  {
  }

  /** The meaning of an update, on the file's text: loading the file again gives a requested key its new value
      (unless a non-empty first value is to be preserved) and every other key its first old value. */
  lemma UpdateMeaning(text: string, updates: seq<Entry>, q: string, preserve: bool, eval: string -> Literal)
    requires PlainText(text) && Requests(updates)
    ensures LastOf(SplitKeepEnds(UpdatedText(text, updates, preserve, eval)), q, EnvSyntax(eval)) ==
            Resolved(FirstOf(SplitKeepEnds(text), q, EnvSyntax(eval)), Lookup(updates, q), preserve)
  {
    SplitIsPlain(text);
    EnvIsLawful(eval);
    RequestsAreWritable(updates, eval);
    UpdatedMeaning(SplitKeepEnds(text), updates, q, preserve, EnvSyntax(eval));
    SplitOfConcat(Updated(SplitKeepEnds(text), updates, preserve, EnvSyntax(eval)).lines);
  }

  lemma {:induction false} PlainLinesMakePlainText(lines: seq<string>)
    requires PlainLines(lines)
    ensures PlainText(Concat(lines))
  {
    if lines != [] {
      PlainLinesMakePlainText(lines[1..]);
      PlainStart(lines[0], Concat(lines[1..]));
    }
  }

  lemma PlainStart(line: string, rest: string)
    requires PlainLine(line) && PlainText(rest)
    ensures PlainText(line + rest)
  {
    forall k | 0 <= k < |line|
      ensures IsBoundary(line[k]) ==> line[k] == '\n'
    {
      assert k < |Body(line)| ==> Body(line)[k] == line[k];
    }
  }

  /** The meaning of `update_env_file` on the files: the env file or, where there is none, the example file is
      what is updated; what is stored loads as the update means. */
  lemma FileUpdateMeaning(env: Option<string>, example: Option<string>, updates: seq<Entry>, q: string,
      preserve: bool, eval: string -> Literal)
    requires PlainText(UniversalNewlines(Source(env, example))) && Requests(updates)
    ensures var u := Updated(LoadLines(env, example), updates, preserve, EnvSyntax(eval));
      LastOf(LoadLines(Some(Concat(u.lines)), None), q, EnvSyntax(eval)) ==
      Resolved(FirstOf(LoadLines(env, example), q, EnvSyntax(eval)), Lookup(updates, q), preserve)
  {
    var lines := LoadLines(env, example);
    SplitIsPlain(UniversalNewlines(Source(env, example)));
    EnvIsLawful(eval);
    RequestsAreWritable(updates, eval);
    UpdatedMeaning(lines, updates, q, preserve, EnvSyntax(eval));
    StoredLinesLoad(Updated(lines, updates, preserve, EnvSyntax(eval)).lines);
  }

  lemma StoredLinesLoad(lines: seq<string>)
    requires PlainLines(lines)
    ensures LoadLines(Some(Concat(lines)), None) == lines
  {
    PlainLinesMakePlainText(lines);
    UniversalNewlinesFixes(Concat(lines));
    SplitOfConcat(lines);
  }

  /** Loading a file before and after an update that does not ask for `q` agrees on `q` exactly when the
      first and the last old assignment do. */
  lemma UnrequestedKeys(text: string, updates: seq<Entry>, q: string, preserve: bool, eval: string -> Literal)
    requires PlainText(text) && Requests(updates) && Lookup(updates, q) == None
    ensures var s := EnvSyntax(eval);
      var was := SplitKeepEnds(text);
      LastOf(SplitKeepEnds(UpdatedText(text, updates, preserve, eval)), q, s) == LastOf(was, q, s) <==>
      FirstOf(was, q, s) == LastOf(was, q, s)
  {
    UpdateMeaning(text, updates, q, preserve, eval);
  }

  /** They need not: of two assignments loading takes the last and updating keeps the first. */
  lemma UpdateKeepsTheFirst(key: string, v: string, w: string, eval: string -> Literal)
    requires IsKey(key) && CleanValue(v) && CleanValue(w)
    ensures var s := EnvSyntax(eval);
      var text := RenderLine("", key, v, true) + RenderLine("", key, w, true);
      && LastOf(SplitKeepEnds(text), key, s) == Some(w)
      && LastOf(SplitKeepEnds(UpdatedText(text, [], false, eval)), key, s) == Some(v)
  {
    WrittenLine(key, v, eval);
    WrittenLine(key, w, eval);
    TwoLines(Rendered("", key, v), Rendered("", key, w));
    FirstOfTwo(RenderLine("", key, v, true), RenderLine("", key, w, true), key, eval);
  }

  lemma WrittenLine(key: string, v: string, eval: string -> Literal)
    requires IsKey(key) && CleanValue(v)
    ensures var line := RenderLine("", key, v, true);
      && OneLine(Rendered("", key, v)) && PlainLine(line) && EndsWithNewline(line)
      && Given(line, key, EnvSyntax(eval)) == Some(v)
  {
    EmptyPrefix(key);
    EnvReadsBack("", key, v, true, eval);
    RenderedOneLine("", key, v);
  }

  lemma FirstOfTwo(a: string, b: string, key: string, eval: string -> Literal)
    requires PlainLine(a) && EndsWithNewline(a) && PlainLine(b) && EndsWithNewline(b)
    requires SplitKeepEnds(a + b) == [a, b]
    requires Given(a, key, EnvSyntax(eval)).Some? && Given(b, key, EnvSyntax(eval)).Some?
    ensures LastOf(SplitKeepEnds(a + b), key, EnvSyntax(eval)) == Given(b, key, EnvSyntax(eval))
    ensures LastOf(SplitKeepEnds(UpdatedText(a + b, [], false, eval)), key, EnvSyntax(eval)) ==
            Given(a, key, EnvSyntax(eval))
  {
    TwoAssignments(a, b, key, EnvSyntax(eval));
    PlainTwoLines(a, b);
    UpdateMeaning(a + b, [], key, false, eval);
  }

  lemma TwoLines(a: string, b: string)
    requires OneLine(a) && OneLine(b)
    ensures SplitKeepEnds((a + "\n") + (b + "\n")) == [a + "\n", b + "\n"]
  {
    SplitFirst(a, b + "\n");
    SplitFirst(b, "");
    AfterPrefix(b + "\n", "");
    AfterPrefix([b + "\n"], []);
    AfterSuffix(b + "\n");
    AfterSuffix([b + "\n"]);
  }

  lemma PlainTwoLines(a: string, b: string)
    requires PlainLine(a) && EndsWithNewline(a) && PlainLine(b) && EndsWithNewline(b)
    ensures PlainText(a + b)
  {
    var s := a + b;
    forall k | 0 <= k < |s|
      ensures IsBoundary(s[k]) ==> s[k] == '\n'
    {
      assert s[k] == if k < |a| then a[k] else b[k - |a|];
      assert k < |a| - 1 ==> Body(a)[k] == a[k];
      assert |a| <= k < |s| - 1 ==> Body(b)[k - |a|] == b[k - |a|];
    }
  }

  lemma LastOfTwo(a: string, b: string, q: string, syntax: Syntax)
    ensures LastOf([a, b], q, syntax) ==
            if Given(b, q, syntax).Some? then Given(b, q, syntax) else Given(a, q, syntax)
  {
    var later := [a, b][1..];
    assert later == [b];
    assert later[1..] == [];
    assert LastOf(later, q, syntax) == Given(b, q, syntax);
  }

  lemma TwoAssignments(a: string, b: string, q: string, syntax: Syntax)
    requires Given(a, q, syntax).Some? && Given(b, q, syntax).Some?
    ensures LastOf([a, b], q, syntax) == Given(b, q, syntax)
    ensures FirstOf([a, b], q, syntax) == Given(a, q, syntax)
  {
    LastOfTwo(a, b, q, syntax);
  }
}
