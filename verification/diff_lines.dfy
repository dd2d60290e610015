/** What the lines of a diff mean, read as text: for every way to write a hunk down, and for any diff at all, its
    errors included (harness/file_editor.py). */
module DiffLines {
  import opened Text
  import opened UnifiedDiff
  import opened DiffRoundTrip

  // ---------- Hunk headers ----------

  predicate IsNumber(s: string) {
    s != "" && forall k | 0 <= k < |s| :: IsDigit(s[k])
  }

  /** A number, perhaps with a comma and a count. */
  ghost predicate IsRange(s: string, first: nat) {
    exists a: string, more: string | IsNumber(a) && DecimalValue(a) == first ::
      s == a + more && (more == "" || (more[0] == ',' && IsNumber(more[1..])))
  }

  /** `@@ -range +range @@` and whatever follows. */
  ghost predicate IsHeaderText(line: string, first: nat) {
    exists r: string, r': string, first': nat, more: string | IsRange(r, first) && IsRange(r', first') ::
      line == "@@ -" + (r + (" +" + (r' + (" @@" + more))))
  }

  lemma ReadsRangeText(r: string, first: nat, rest: string)
    requires IsRange(r, first) && rest != "" && rest[0] == ' '
    ensures ReadRange(r + rest) == Some((first, rest))
  {
    var a: string, more: string :| IsNumber(a) && DecimalValue(a) == first && r == a + more
      && (more == "" || (more[0] == ',' && IsNumber(more[1..])));
    if more == "" {
      assert a + more == a;
      ReadsNumber(a, rest);
    } else {
      assert more == "," + more[1..];
      assert r + rest == a + ("," + (more[1..] + rest));
      ReadsCountedRange(a, more[1..], rest);
    }
  }

  lemma NumberRead(s: string, first: nat, rest: string)
    requires ReadNumber(s) == Some((first, rest))
    ensures exists a: string :: IsNumber(a) && DecimalValue(a) == first && s == a + rest
  {
    var a := s[..DigitRun(s)];
    assert IsNumber(a) && s == a + rest;
  }

  lemma RangeRead(s: string, first: nat, rest: string)
    requires ReadRange(s) == Some((first, rest))
    ensures exists r: string :: IsRange(r, first) && s == r + rest
  {
    var (n, after) := ReadNumber(s).value;
    NumberRead(s, n, after);
    var a: string :| IsNumber(a) && DecimalValue(a) == n && s == a + after;
    if after == rest {
      AfterSuffix(a);
      assert IsRange(a, first);
    } else {
      var (count, last) := ReadNumber(after[1..]).value;
      CountRead(s, a, after, first, count, rest);
    }
  }

  lemma CountRead(s: string, a: string, after: string, first: nat, count: nat, rest: string)
    requires IsNumber(a) && DecimalValue(a) == first && s == a + after
    requires after != "" && after[0] == ',' && ReadNumber(after[1..]) == Some((count, rest))
    ensures exists r: string :: IsRange(r, first) && s == r + rest
  {
    NumberRead(after[1..], count, rest);
    var b: string :| IsNumber(b) && DecimalValue(b) == count && after[1..] == b + rest;
    CountedRange(a, b, first);
    assert s == (a + ("," + b)) + rest;
  }

  lemma CountedRange(a: string, b: string, first: nat)
    requires IsNumber(a) && IsNumber(b) && DecimalValue(a) == first
    ensures IsRange(a + ("," + b), first)
  {
    assert ("," + b)[1..] == b;
  }

  /** A header is accepted, and taken for the line it shows, exactly when it has this form. */
  lemma HeaderPattern(line: string, first: nat)
    ensures HunkOldStart(line) == Some(first) <==> IsHeaderText(line, first)
  {
    if IsHeaderText(line, first) {
      HeaderAccepted(line, first);
    }
    if HunkOldStart(line) == Some(first) {
      HeaderHasForm(line, first);
    }
  }

  lemma HeaderAccepted(line: string, first: nat)
    requires IsHeaderText(line, first)
    ensures HunkOldStart(line) == Some(first)
  {
    var r: string, r': string, first': nat, more: string :| IsRange(r, first) && IsRange(r', first')
      && line == "@@ -" + (r + (" +" + (r' + (" @@" + more))));
    var end := " @@" + more;
    var tail := " +" + (r' + end);
    ReadsRangeText(r', first', end);
    ReadsRangeText(r, first, tail);
    AfterPrefix("@@ -", r + tail);
    AfterPrefix(" +", r' + end);
    EndAccepted(first, first', end, more);
    HeaderPrefix(line, r + tail);
  }

  lemma EndAccepted(first: nat, first': nat, end: string, more: string)
    requires end == " @@" + more
    ensures AfterNewRange(first, Some((first', end))) == Some(first)
  {
    assert end[1..][0] == '@' && end[1..][1] == '@';
  }

  lemma HeaderHasForm(line: string, first: nat)
    requires HunkOldStart(line) == Some(first)
    ensures IsHeaderText(line, first)
  {
    var (n, tail) := ReadRange(line[4..]).value;
    RangeRead(line[4..], n, tail);
    var r: string :| IsRange(r, n) && line[4..] == r + tail;
    var (n', end) := ReadRange(tail[2..]).value;
    RangeRead(tail[2..], n', end);
    var r': string :| IsRange(r', n') && tail[2..] == r' + end;
    Pieces(line, tail, end, r, r');
  }

  lemma Pieces(line: string, tail: string, end: string, r: string, r': string)
    requires |line| >= 4 && line[0] == '@' && line[1] == '@' && line[2] == ' ' && line[3] == '-'
    requires |tail| >= 2 && tail[0] == ' ' && tail[1] == '+'
    requires |end| >= 3 && end[0] == ' ' && end[1] == '@' && end[2] == '@'
    requires line[4..] == r + tail && tail[2..] == r' + end
    ensures line == "@@ -" + (r + (" +" + (r' + (" @@" + end[3..]))))
  {
    assert end == " @@" + end[3..];
    assert tail == " +" + (r' + end);
    assert line == "@@ -" + line[4..];
  }

  // ---------- Every way to write a hunk ----------

  /** A line written for an edit: its sign and its text, where the sign of an empty unchanged line may be left out. */
  predicate Writes(line: string, e: Edit) {
    match e
    case Keep(text) => line == " " + text || (text == "" && line == "")
    case Delete(text) => line == "-" + text
    case Insert(text) => line == "+" + text
  }

  /** A remark, as `\ No newline at end of file`. */
  predicate IsRemark(line: string) {
    line != "" && line[0] == '\\'
  }

  /** The edits, a line for each, with remarks anywhere among them. */
  predicate WritesEdits(d: seq<string>, edits: seq<Edit>)
    decreases |d|
  {
    if d == [] then edits == []
    else if IsRemark(d[0]) then WritesEdits(d[1..], edits)
    else edits != [] && Writes(d[0], edits[0]) && WritesEdits(d[1..], edits[1..])
  }

  /** The first n lines write the hunk down, under a header that shows its first line. */
  ghost predicate WritesHunk(d: seq<string>, n: nat, h: Hunk) {
    1 <= n <= |d| && IsHeaderText(d[0], First(h)) && WritesEdits(d[1..n], h.edits)
  }

  /** The hunks, one after the other. */
  ghost predicate WritesHunks(d: seq<string>, hunks: seq<Hunk>)
    decreases |hunks|
  {
    if hunks == [] then d == []
    else exists n: nat | WritesHunk(d, n, hunks[0]) :: WritesHunks(d[n..], hunks[1..])
  }

  /** Some lines that are no header, then the hunks. */
  ghost predicate WritesDiff(d: seq<string>, hunks: seq<Hunk>) {
    exists n | 0 <= n <= |d| ::
      (forall k | 0 <= k < n :: !StartsWith(d[k], "@@")) && WritesHunks(d[n..], hunks)
  }

  lemma StartsWithAt(line: string)
    ensures StartsWith(line, "@@") <==> IsHunkHeader(line)
  {
    assert |line| >= 2 ==> line[..2] == [line[0], line[1]];
  }

  lemma WrittenCommand(line: string, e: Edit)
    requires Writes(line, e)
    ensures ReadCommand(line) == EditCommand(e)
  {
    match e
    case Keep(text) =>
    case Delete(text) =>
    case Insert(text) => AfterPrefix("+", text);
  }

  lemma SameFirst(source: seq<string>, c: Command, a: seq<Command>, b: seq<Command>)
    requires forall p: nat :: Replay(source, p, a) == Replay(source, p, b)
    ensures forall p: nat :: Replay(source, p, [c] + a) == Replay(source, p, [c] + b)
  {
    assert ([c] + a)[1..] == a && ([c] + b)[1..] == b;
  }

  ghost predicate SameReplay(source: seq<string>, a: seq<Command>, b: seq<Command>) {
    forall p: nat :: Replay(source, p, a) == Replay(source, p, b)
  }

  lemma RemarkSkipped(source: seq<string>, cs: seq<Command>)
    ensures SameReplay(source, [Note] + cs, cs)
  {
    assert ([Note] + cs)[1..] == cs;
  }

  lemma ReadFirst(d: seq<string>)
    requires d != []
    ensures ReadCommands(d) == [ReadCommand(d[0])] + ReadCommands(d[1..])
  {
  }

  lemma {:induction false} WrittenEditsReplay(source: seq<string>, d: seq<string>, edits: seq<Edit>, rest: seq<Command>)
    requires WritesEdits(d, edits)
    ensures SameReplay(source, ReadCommands(d) + rest, EditCommands(edits) + rest)
    decreases |d|
  {
    if d != [] {
      ReadFirst(d);
      var c, cs := ReadCommand(d[0]), ReadCommands(d[1..]);
      ConcatAssoc([c], cs, rest);
      if IsRemark(d[0]) {
        WrittenEditsReplay(source, d[1..], edits, rest);
        RemarkSkipped(source, cs + rest);
      } else {
        WrittenCommand(d[0], edits[0]);
        WrittenEditsReplay(source, d[1..], edits[1..], rest);
        SameFirst(source, c, cs + rest, EditCommands(edits[1..]) + rest);
        ConcatAssoc([c], EditCommands(edits[1..]), rest);
      }
    }
  }

  lemma {:induction false} WrittenHunksReplay(source: seq<string>, d: seq<string>, hunks: seq<Hunk>)
    requires WritesHunks(d, hunks)
    ensures SameReplay(source, ReadCommands(d), HunkCommands(hunks))
    decreases |hunks|
  {
    if hunks != [] {
      var n := FirstHunk(d, hunks);
      CutAt(d, n);
      WrittenHunksReplay(source, d[n..], hunks[1..]);
      WrittenHunk(source, d, d[1..n], d[n..], hunks[0], HunkCommands(hunks[1..]));
    }
  }

  lemma FirstHunk(d: seq<string>, hunks: seq<Hunk>) returns (n: nat)
    requires WritesHunks(d, hunks) && hunks != []
    ensures WritesHunk(d, n, hunks[0]) && WritesHunks(d[n..], hunks[1..])
  {
    n :| WritesHunk(d, n, hunks[0]) && WritesHunks(d[n..], hunks[1..]);
  }

  lemma CutAt(d: seq<string>, n: nat)
    requires 1 <= n <= |d|
    ensures d[1..] == d[1..n] + d[n..]
  {
  }

  lemma WrittenHunk(source: seq<string>, d: seq<string>, edits: seq<string>, rest: seq<string>, h: Hunk, cs: seq<Command>)
    requires d != [] && d[1..] == edits + rest && IsHeaderText(d[0], First(h)) && WritesEdits(edits, h.edits)
    requires SameReplay(source, ReadCommands(rest), cs)
    ensures SameReplay(source, ReadCommands(d), ThenHunk(First(h), h.edits, cs))
  {
    HeaderReads(d[0], First(h));
    ReadFirst(d);
    ReadCommandsAppend(edits, rest);
    WrittenEditsReplay(source, edits, h.edits, ReadCommands(rest));
    OneHunk(source, First(h), h.edits, ReadCommands(edits), ReadCommands(rest), cs);
  }

  lemma HeaderReads(line: string, first: nat)
    requires IsHeaderText(line, first)
    ensures ReadCommand(line) == Goto(first)
  {
    HeaderAccepted(line, first);
  }

  lemma OneHunk(source: seq<string>, first: nat, edits: seq<Edit>, cs: seq<Command>, rest: seq<Command>, rest': seq<Command>)
    requires SameReplay(source, cs + rest, EditCommands(edits) + rest) && SameReplay(source, rest, rest')
    ensures SameReplay(source, [Goto(first)] + (cs + rest), ThenHunk(first, edits, rest'))
  {
    SameAfter(source, EditCommands(edits), rest, rest');
    SameFirst(source, Goto(first), cs + rest, EditCommands(edits) + rest');
  }

  lemma {:induction false} SameAfter(source: seq<string>, cs: seq<Command>, rest: seq<Command>, rest': seq<Command>)
    requires SameReplay(source, rest, rest')
    ensures SameReplay(source, cs + rest, cs + rest')
  {
    if cs == [] {
      AfterPrefix([], rest);
      AfterPrefix([], rest');
    } else {
      SameAfter(source, cs[1..], rest, rest');
      SameFirst(source, cs[0], cs[1..] + rest, cs[1..] + rest');
      assert cs + rest == [cs[0]] + (cs[1..] + rest) && cs + rest' == [cs[0]] + (cs[1..] + rest');
    }
  }

  /** Text lines that write the hunks down replay as the hunks. */
  lemma WrittenReplay(source: seq<string>, d: seq<string>, hunks: seq<Hunk>)
    requires WritesDiff(d, hunks)
    ensures Replay(source, 0, ReadCommands(DropPreamble(d))) == Replay(source, 0, HunkCommands(hunks))
  {
    var n :| 0 <= n <= |d| && (forall k | 0 <= k < n :: !StartsWith(d[k], "@@")) && WritesHunks(d[n..], hunks);
    WrittenStart(d[n..], hunks);
    PreambleDropped(d, n);
    WrittenHunksReplay(source, d[n..], hunks);
  }

  lemma WrittenStart(d: seq<string>, hunks: seq<Hunk>)
    requires WritesHunks(d, hunks)
    ensures d == [] || StartsWith(d[0], "@@")
  {
    if hunks != [] {
      HeaderPattern(d[0], First(hunks[0]));
      StartsWithAt(d[0]);
    }
  }

  /** What stands before the first line that starts with `@@` is dropped. */
  lemma {:induction false} PreambleDropped(d: seq<string>, n: nat)
    requires n <= |d| && (forall k | 0 <= k < n :: !StartsWith(d[k], "@@"))
    requires n == |d| || StartsWith(d[n], "@@")
    ensures DropPreamble(d) == d[n..]
  {
    if d != [] {
      StartsWithAt(d[0]);
      if n > 0 {
        PreambleDropped(d[1..], n - 1);
      }
    }
  }

  lemma HeaderHasPlus(line: string, first: nat)
    requires IsHeaderText(line, first)
    ensures '+' in line
  {
    var r: string, r': string, first': nat, more: string :| IsRange(r, first) && IsRange(r', first')
      && line == "@@ -" + (r + (" +" + (r' + (" @@" + more))));
    var rest := " +" + (r' + (" @@" + more));
    assert rest[1] == '+' && line[4 + |r| + 1] == rest[1];
  }

  lemma {:induction false} LineShows(text: string, k: nat)
    requires k < |SplitLines(text)| && '+' in SplitLines(text)[k]
    ensures '+' in text
    decreases |text|
  {
    var n := LineLength(text);
    if k > 0 {
      LineShows(text[n + TerminatorLength(text, n)..], k - 1);
    }
  }

  lemma WrittenHasPlus(diff: string, hunks: seq<Hunk>)
    requires WritesDiff(SplitLines(diff), hunks) && hunks != []
    ensures '+' in diff
  {
    var d := SplitLines(diff);
    var n :| 0 <= n <= |d| && (forall k | 0 <= k < n :: !StartsWith(d[k], "@@")) && WritesHunks(d[n..], hunks);
    HeaderHasPlus(d[n], First(hunks[0]));
    LineShows(diff, n);
  }

  /** However a diff is written down, with its empty context lines blank or as one space, with remarks, section
      headings and a preamble, applying it never fails, and gives the new file's lines, and its text, exactly
      when the printed diff does. */
  lemma WrittenRoundTrip(before: string, after: string, diff: string, hunks: seq<Hunk>)
    requires WritesDiff(SplitLines(diff), hunks)
    requires ValidHunks(SplitLines(before), SplitLines(after), hunks, 0, 0) && Spaced(hunks, 0)
    ensures Applied(before, diff).Ok?
    ensures var t := Applied(before, diff).value;
      SplitLines(t) == SplitLines(after) <==> Repeating(SplitLines(before), hunks, 0) && LastLineShown(SplitLines(after))
    ensures hunks != [] ==>
      (Applied(before, diff).value == after <==> Repeating(SplitLines(before), hunks, 0) && Plain(after))
  {
    var b, a := SplitLines(before), SplitLines(after);
    WrittenReplay(b, SplitLines(diff), hunks);
    if hunks != [] {
      WrittenHasPlus(diff, hunks);
    }
    ValidHunksAreClean(b, a, hunks, 0, 0);
    ReplayIsExact(b, a, hunks, 0, 0);
    ReplayedAreOneLine(b, 0, hunks);
    WholeSuffix(a);
    RenderedMatches(Replay(b, 0, HunkCommands(hunks)), after, Repeating(b, hunks, 0),
      EndsWithNewline(before) || '+' in diff);
  }

  // ---------- Any diff ----------

  /** How many old lines are used after this line, from those before it; `header` is the line number it shows if it
      is a header. */
  function Next(pos: nat, line: string, header: Option<nat>): nat {
    if StartsWith(line, "@@") then
      match header
      case Some(first) => if first > pos + 1 then first - 1 else pos
      case None => pos
    else if line == "" || line[0] in [' ', '-'] then pos + 1
    else pos
  }

  /** The lines it adds to the result. */
  function Piece(source: seq<string>, pos: nat, line: string, header: Option<nat>): seq<string> {
    if StartsWith(line, "@@") then
      if pos <= Next(pos, line, header) <= |source| then source[pos..Next(pos, line, header)] else []
    else if line == "" || line[0] == ' ' then if pos < |source| then [source[pos]] else []
    else if line[0] == '+' then [line[1..]]
    else []
  }

  /** What is wrong with it. */
  function Failure(source: seq<string>, pos: nat, line: string, header: Option<nat>): Option<Error> {
    if StartsWith(line, "@@") then
      match header
      case None => Some(BadHunkHeader(line))
      case Some(first) => if first > pos + 1 && first - 1 > |source| then Some(SourceExhausted) else None
    else if line == "" || line[0] == ' ' then if pos >= |source| then Some(ContextExceedsSource) else None
    else if line[0] in ['-', '+', '\\'] then None
    else Some(UnsupportedLine(line))
  }

  /** How many old lines the lines of a diff use. */
  function Used(d: seq<string>): nat {
    if d == [] then 0 else
      var line := d[|d| - 1];
      Next(Used(d[..|d| - 1]), line, HunkOldStart(line))
  }

  /** The lines they make. */
  function Made(source: seq<string>, d: seq<string>): seq<string> {
    if d == [] then [] else
      var line := d[|d| - 1];
      Made(source, d[..|d| - 1]) + Piece(source, Used(d[..|d| - 1]), line, HunkOldStart(line))
  }

  /** What is wrong with line k, where the lines before it lead. */
  function FailureAt(source: seq<string>, d: seq<string>, k: nat): Option<Error>
    requires k < |d|
  {
    Failure(source, Used(d[..k]), d[k], HunkOldStart(d[k]))
  }

  /** Line k is the first with something wrong. */
  predicate FailsFirst(source: seq<string>, d: seq<string>, k: nat, e: Error) {
    k < |d| && FailureAt(source, d, k) == Some(e) && forall j | 0 <= j < k :: FailureAt(source, d, j) == None
  }

  /** Replaying a line and then others: it fails with what is wrong, or adds its lines and goes on. */
  ghost predicate Steps(source: seq<string>, pos: nat, line: string, header: Option<nat>, cs: seq<Command>,
      r: Result<seq<string>, Error>)
  {
    match Failure(source, pos, line, header)
    case Some(e) => r == Err(e)
    case None => r == Prepend(Piece(source, pos, line, header), Replay(source, Next(pos, line, header), cs))
  }

  /** The command of a line, its header read. */
  function CommandOf(line: string, header: Option<nat>): Command {
    if StartsWith(line, "@@") then
      match header
      case Some(first) => Goto(first)
      case None => BadHeader(line)
    else if line == "" || line[0] == ' ' then Context
    else if line[0] == '-' then Removed
    else if line[0] == '+' then Added(line[1..])
    else if line[0] == '\\' then Note
    else Unknown(line)
  }

  lemma ReadsAs(line: string)
    ensures ReadCommand(line) == CommandOf(line, HunkOldStart(line))
  {
    StartsWithAt(line);
  }

  lemma OneCommand(source: seq<string>, pos: nat, line: string, header: Option<nat>, cs: seq<Command>, all: seq<Command>)
    requires all == [CommandOf(line, header)] + cs
    ensures Steps(source, pos, line, header, cs, Replay(source, pos, all))
  {
    assert all[0] == CommandOf(line, header) && all[1..] == cs;
    PrependAssoc([], [], Replay(source, pos, cs));
    PrependAssoc([], [], Replay(source, pos + 1, cs));
    assert pos <= |source| ==> source[pos..pos] == [];
  }

  lemma {:induction false} UpTo(source: seq<string>, d: seq<string>, k: nat)
    requires k <= |d| && forall j | 0 <= j < k :: FailureAt(source, d, j) == None
    ensures Replay(source, 0, ReadCommands(d)) ==
            Prepend(Made(source, d[..k]), Replay(source, Used(d[..k]), ReadCommands(d[k..])))
  {
    if k == 0 {
      NoneRead(source, d, d[..0], d[0..]);
    } else {
      UpTo(source, d, k - 1);
      assert FailureAt(source, d, k - 1) == None;
      Around(d, k);
      UpToNext(source, d[..k - 1], d[k - 1], d[k..], d[k - 1..], d[..k]);
    }
  }

  lemma NoneRead(source: seq<string>, d: seq<string>, none: seq<string>, all: seq<string>)
    requires none == [] && all == d
    ensures Replay(source, 0, ReadCommands(d)) ==
            Prepend(Made(source, none), Replay(source, Used(none), ReadCommands(all)))
  {
    PrependAssoc([], [], Replay(source, 0, ReadCommands(d)));
  }

  lemma Around(d: seq<string>, k: nat)
    requires 0 < k <= |d|
    ensures d[..k] == d[..k - 1] + [d[k - 1]] && d[k - 1..] == [d[k - 1]] + d[k..]
  {
  }

  lemma UpToNext(source: seq<string>, front: seq<string>, line: string, rest: seq<string>, from: seq<string>, now: seq<string>)
    requires Failure(source, Used(front), line, HunkOldStart(line)) == None
    requires from == [line] + rest && now == front + [line]
    ensures Prepend(Made(source, front), Replay(source, Used(front), ReadCommands(from))) ==
            Prepend(Made(source, now), Replay(source, Used(now), ReadCommands(rest)))
  {
    assert now[..|now| - 1] == front && from[1..] == rest;
    ReadFirst(from);
    ReadsAs(line);
    UpToOne(source, Used(front), Made(source, front), line, HunkOldStart(line), ReadCommands(rest), ReadCommands(from));
  }

  lemma UpToOne(source: seq<string>, pos: nat, made: seq<string>, line: string, header: Option<nat>, cs: seq<Command>,
      all: seq<Command>)
    requires Failure(source, pos, line, header) == None && all == [CommandOf(line, header)] + cs
    ensures Prepend(made, Replay(source, pos, all)) ==
            Prepend(made + Piece(source, pos, line, header), Replay(source, Next(pos, line, header), cs))
  {
    OneCommand(source, pos, line, header, cs, all);
    PrependAssoc(made, Piece(source, pos, line, header), Replay(source, Next(pos, line, header), cs));
  }

  /** Replaying any lines fails with what is wrong with the first line that has something wrong, and else gives the
      lines made, then the old lines that are left. */
  lemma ReplayMeaning(source: seq<string>, d: seq<string>)
    ensures forall k: nat, e | FailsFirst(source, d, k, e) :: Replay(source, 0, ReadCommands(d)) == Err(e)
    ensures (forall k | 0 <= k < |d| :: FailureAt(source, d, k) == None) ==>
      Replay(source, 0, ReadCommands(d)) ==
      Ok(Made(source, d) + if Used(d) <= |source| then source[Used(d)..] else [])
  {
    forall k: nat, e | FailsFirst(source, d, k, e)
      ensures Replay(source, 0, ReadCommands(d)) == Err(e)
    {
      FailsHere(source, d, k, e);
    }
    if forall k | 0 <= k < |d| :: FailureAt(source, d, k) == None {
      UpTo(source, d, |d|);
      assert d[..|d|] == d && d[|d|..] == [];
    }
  }

  lemma FailsHere(source: seq<string>, d: seq<string>, k: nat, e: Error)
    requires FailsFirst(source, d, k, e)
    ensures Replay(source, 0, ReadCommands(d)) == Err(e)
  {
    UpTo(source, d, k);
    Around(d, k + 1);
    var from := d[k..];
    assert from[0] == d[k] && from[1..] == d[k + 1..];
    ReadFirst(from);
    ReadsAs(d[k]);
    OneCommand(source, Used(d[..k]), d[k], HunkOldStart(d[k]), ReadCommands(d[k + 1..]), ReadCommands(from));
  }

  /** What applying any diff gives, on the lines of the texts: it fails with the first thing wrong behind the
      preamble, and else writes the lines made and the old lines left. */
  lemma AnyDiff(original: string, diff: string, n: nat)
    requires var d := SplitLines(diff);
      n <= |d| && (forall k | 0 <= k < n :: !StartsWith(d[k], "@@")) && (n == |d| || StartsWith(d[n], "@@"))
    ensures var source, d := SplitLines(original), SplitLines(diff)[n..];
      forall k: nat, e | FailsFirst(source, d, k, e) :: Applied(original, diff) == Err(e)
    ensures var source, d := SplitLines(original), SplitLines(diff)[n..];
      (forall k | 0 <= k < |d| :: FailureAt(source, d, k) == None) ==>
        Applied(original, diff) ==
        Ok(Rendered(Made(source, d) + (if Used(d) <= |source| then source[Used(d)..] else []),
                    EndsWithNewline(original) || '+' in diff))
  {
    PreambleDropped(SplitLines(diff), n);
    ReplayMeaning(SplitLines(original), SplitLines(diff)[n..]);
  }
}
