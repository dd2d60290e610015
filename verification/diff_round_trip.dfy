/** Replaying a printed diff gives back the new file: the law that `generate_diff` and
    `_apply_unified_diff` (harness/file_editor.py) exist for, on every alignment. */
module DiffRoundTrip {
  import opened Text
  import opened UnifiedDiff

  // ---------- Reading back what was printed ----------

  /** The line number a printed hunk header carries for the old file. */
  function First(h: Hunk): nat {
    FirstLine(h.oldStart, |OldSide(h.edits)|)
  }

  function EditCommand(e: Edit): Command {
    match e
    case Keep(_) => Context
    case Delete(_) => Removed
    case Insert(line) => Added(line)
  }

  function EditCommands(edits: seq<Edit>): seq<Command> {
    if edits == [] then [] else [EditCommand(edits[0])] + EditCommands(edits[1..])
  }

  function HunkCommands(hunks: seq<Hunk>): seq<Command> {
    if hunks == [] then [] else ThenHunk(First(hunks[0]), hunks[0].edits, HunkCommands(hunks[1..]))
  }

  function ThenHunk(first: nat, edits: seq<Edit>, rest: seq<Command>): seq<Command> {
    [Goto(first)] + (EditCommands(edits) + rest)
  }

  ghost predicate CleanEdits(edits: seq<Edit>) {
    forall k | 0 <= k < |edits| :: OneLine(edits[k].line)
  }

  ghost predicate CleanHunks(hunks: seq<Hunk>) {
    forall k | 0 <= k < |hunks| :: CleanEdits(hunks[k].edits)
  }

  lemma ReadsNumber(digits: string, rest: string)
    requires digits != "" && AllDigits(digits)
    requires rest == "" || !IsDigit(rest[0])
    ensures ReadNumber(digits + rest) == Some((DecimalValue(digits), rest))
  {
    DigitRunOf(digits, rest);
    AfterPrefix(digits, rest);
  }

  lemma ReadsCountedRange(digits: string, count: string, rest: string)
    requires digits != "" && AllDigits(digits)
    requires count != "" && AllDigits(count)
    requires rest != "" && rest[0] == ' '
    ensures ReadRange(digits + ("," + (count + rest))) == Some((DecimalValue(digits), rest))
  {
    ReadsNumber(digits, "," + (count + rest));
    ReadsNumber(count, rest);
    AfterPrefix(",", count + rest);
  }

  /** A printed range reads back as its first number, whatever follows it. */
  lemma ReadsFormattedRange(first: nat, length: nat, rest: string)
    requires rest != "" && rest[0] == ' '
    ensures ReadRange(FormatRange(first, length) + rest) == Some((first, rest))
  {
    var digits, count := Decimal(first), Decimal(length);
    DecimalRoundTrip(first);
    if length == 1 {
      assert digits + "" == digits;
      ReadsNumber(digits, rest);
    } else {
      ConcatAssoc(digits, "," + count, rest);
      ConcatAssoc(",", count, rest);
      ReadsCountedRange(digits, count, rest);
    }
  }

  lemma ReadsNewRange(first: nat, tail: string, first': nat)
    requires |tail| >= 2 && tail[0] == ' ' && tail[1] == '+'
    requires ReadRange(tail[2..]) == Some((first', " @@"))
    ensures AfterOldRange(Some((first, tail))) == Some(first)
  {
    var end := " @@";
    assert end[1..] == "@@";
    assert AfterNewRange(first, Some((first', end))) == Some(first);
  }

  lemma ReadsOldRange(header: string, r: Option<(nat, string)>, first: nat)
    requires |header| >= 4 && header[0] == '@' && header[1] == '@' && header[2] == ' ' && header[3] == '-'
    requires ReadRange(header[4..]) == r && AfterOldRange(r) == Some(first)
    ensures ReadCommand(header) == Goto(first)
  {
  }

  lemma HeaderPrefix(header: string, range: string)
    requires header == "@@ -" + range
    ensures |header| >= 4 && header[0] == '@' && header[1] == '@' && header[2] == ' ' && header[3] == '-'
    ensures header[4..] == range
  {
  }

  lemma ReadsHeader(range: string, tail: string, range': string, first: nat, first': nat)
    requires tail == " +" + range'
    requires ReadRange(range') == Some((first', " @@")) && ReadRange(range + tail) == Some((first, tail))
    ensures ReadCommand("@@ -" + (range + tail)) == Goto(first)
  {
    AfterPrefix(" +", range');
    ReadsNewRange(first, tail, first');
    HeaderPrefix("@@ -" + (range + tail), range + tail);
    ReadsOldRange("@@ -" + (range + tail), Some((first, tail)), first);
  }

  lemma ReadsFormattedHeader(first: nat, length: nat, first': nat, length': nat)
    ensures ReadCommand(FormatHeader(first, length, first', length')) == Goto(first)
  {
    var range' := FormatRange(first', length') + " @@";
    ReadsFormattedRange(first', length', " @@");
    ReadsFormattedRange(first, length, " +" + range');
    ReadsHeader(FormatRange(first, length), " +" + range', range', first, first');
  }

  lemma ReadCommandsAppend(a: seq<string>, b: seq<string>)
    ensures ReadCommands(a + b) == ReadCommands(a) + ReadCommands(b)
  {
    var cs, ds := ReadCommands(a + b), ReadCommands(a) + ReadCommands(b);
    forall k | 0 <= k < |a + b|
      ensures cs[k] == ds[k]
    {
      assert cs[k] == ReadCommand((a + b)[k]);
      assert (a + b)[k] == if k < |a| then a[k] else b[k - |a|];
    }
  }

  lemma ReadsEdit(e: Edit)
    ensures ReadCommand(PrintEdit(e)) == EditCommand(e)
  {
    assert PrintEdit(e)[1..] == e.line;
  }

  lemma {:induction false} ReadsEdits(edits: seq<Edit>)
    ensures ReadCommands(PrintEdits(edits)) == EditCommands(edits)
  {
    if edits != [] {
      ReadsEdit(edits[0]);
      ReadsEdits(edits[1..]);
      ReadCommandsAppend([PrintEdit(edits[0])], PrintEdits(edits[1..]));
      assert ReadCommands([PrintEdit(edits[0])]) == [EditCommand(edits[0])];
    }
  }

  /** Every printed hunk reads back as the command that moves to its first line and the commands
      of its edits. */
  lemma {:induction false} ReadsHunks(hunks: seq<Hunk>)
    ensures ReadCommands(PrintHunks(hunks)) == HunkCommands(hunks)
  {
    if hunks != [] {
      var h := hunks[0];
      var m, n := |OldSide(h.edits)|, |NewSide(h.edits)|;
      ReadsFormattedHeader(First(h), m, FirstLine(h.newStart, n), n);
      ReadsEdits(h.edits);
      ReadsHunks(hunks[1..]);
      var lines, rest := PrintEdits(h.edits), PrintHunks(hunks[1..]);
      ReadCommandsAppend(lines, rest);
      ReadCommandsAppend([PrintHeader(h)], lines + rest);
      ConcatAssoc([PrintHeader(h)], lines, rest);
      assert ReadCommands([PrintHeader(h)]) == [Goto(First(h))];
    }
  }

  lemma DigitIsNoBoundary(s: string)
    requires AllDigits(s)
    ensures OneLine(s)
  {
    forall k | 0 <= k < |s|
      ensures !IsBoundary(s[k])
    {
      assert IsDigit(s[k]);
    }
  }

  lemma RangeOneLine(first: nat, length: nat)
    ensures OneLine(FormatRange(first, length))
  {
    DigitIsNoBoundary(Decimal(first));
    DigitIsNoBoundary(Decimal(length));
  }

  lemma {:induction false} EditsOneLine(edits: seq<Edit>)
    requires CleanEdits(edits)
    ensures AllOneLine(PrintEdits(edits))
  {
    if edits != [] {
      assert OneLine(PrintEdit(edits[0]));
      EditsOneLine(edits[1..]);
    }
  }

  lemma HeaderOneLine(range: string, range': string)
    requires OneLine(range) && OneLine(range')
    ensures OneLine("@@ -" + (range + (" +" + (range' + " @@"))))
  {
    OneLineConcat(range', " @@");
    OneLineConcat(" +", range' + " @@");
    OneLineConcat(range, " +" + (range' + " @@"));
    OneLineConcat("@@ -", range + (" +" + (range' + " @@")));
  }

  lemma {:induction false} HunksOneLine(hunks: seq<Hunk>)
    requires CleanHunks(hunks)
    ensures AllOneLine(PrintHunks(hunks))
  {
    if hunks != [] {
      var h := hunks[0];
      var m, n := |OldSide(h.edits)|, |NewSide(h.edits)|;
      RangeOneLine(First(h), m);
      RangeOneLine(FirstLine(h.newStart, n), n);
      HeaderOneLine(FormatRange(First(h), m), FormatRange(FirstLine(h.newStart, n), n));
      EditsOneLine(h.edits);
      HunksOneLine(hunks[1..]);
    }
  }

  lemma FileHeaderLines(path: string)
    requires OneLine(path)
    ensures OneLine(FromLine(path)) && !IsHunkHeader(FromLine(path))
    ensures OneLine(ToLine(path)) && !IsHunkHeader(ToLine(path)) && ToLine(path)[0] == '+'
  {
    OneLineConcat("--- ", path);
    OneLineConcat("+++ ", path);
    assert FromLine(path)[0] == '-' && ToLine(path)[0] == '+';
  }

  lemma PrintedHunksStart(hunks: seq<Hunk>)
    requires hunks != []
    ensures PrintHunks(hunks) != [] && IsHunkHeader(PrintHunks(hunks)[0])
  {
    assert PrintHunks(hunks)[0] == PrintHeader(hunks[0]);
    assert PrintHeader(hunks[0])[0] == '@' && PrintHeader(hunks[0])[1] == '@';
  }

  /** The printed diff splits into the printed lines, and its file header is skipped. */
  lemma ReadsDiff(path: string, hunks: seq<Hunk>)
    requires OneLine(path) && CleanHunks(hunks)
    ensures SplitLines(GenerateDiff(path, hunks)) == PrintLines(path, hunks)
    ensures ReadCommands(DropPreamble(SplitLines(GenerateDiff(path, hunks)))) == HunkCommands(hunks)
    ensures '+' in GenerateDiff(path, hunks) <==> hunks != []
  {
    ReadsHunks(hunks);
    if hunks != [] {
      var from, to := FromLine(path), ToLine(path);
      FileHeaderLines(path);
      HunksOneLine(hunks);
      PrintedHunksStart(hunks);
      ReadsPrinted(from, to, PrintHunks(hunks));
    }
  }

  lemma ReadsPrinted(from: string, to: string, rest: seq<string>)
    requires OneLine(from) && OneLine(to) && AllOneLine(rest)
    requires !IsHunkHeader(from) && !IsHunkHeader(to) && to != "" && to[0] == '+'
    requires rest != [] && IsHunkHeader(rest[0])
    ensures SplitLines(Join([from, to] + rest) + "\n") == [from, to] + rest
    ensures DropPreamble([from, to] + rest) == rest
    ensures '+' in Join([from, to] + rest) + "\n"
  {
    var lines := [from, to] + rest;
    TerminatedIsJoin(lines);
    SplitTerminated(lines);
    SkipsFileHeader(from, to, rest);
    assert [from, to] + rest == [from] + ([to] + rest);
    PlusShows(from, [to] + rest);
  }

  lemma SkipsFileHeader(from: string, to: string, rest: seq<string>)
    requires !IsHunkHeader(from) && !IsHunkHeader(to)
    requires rest != [] && IsHunkHeader(rest[0])
    ensures DropPreamble([from, to] + rest) == rest
  {
    var lines := [from, to] + rest;
    assert lines[1..][0] == to;
    assert lines[1..][1..] == rest;
  }

  lemma PlusShows(first: string, rest: seq<string>)
    requires rest != [] && rest[0] != "" && rest[0][0] == '+'
    ensures '+' in Terminated([first] + rest)
  {
    assert ([first] + rest)[1..] == rest;
    assert Terminated(rest)[0] == '+';
    assert Terminated([first] + rest) == first + "\n" + Terminated(rest);
    assert Terminated([first] + rest)[|first| + 1] == '+';
  }

  // ---------- Replaying ----------

  /** One edit at its own place, given what the commands after it do. */
  lemma ReplayEdit(source: seq<string>, pos: nat, e: Edit, cs: seq<Command>, n: seq<string>, r: Result<seq<string>, Error>)
    requires !e.Insert? ==> pos < |source| && source[pos] == e.line
    requires Replay(source, if e.Insert? then pos else pos + 1, cs) == Prepend(n, r)
    ensures Replay(source, pos, [EditCommand(e)] + cs) == Prepend((if e.Delete? then [] else [e.line]) + n, r)
  {
    assert ([EditCommand(e)] + cs)[1..] == cs;
    PrependAssoc(if e.Delete? then [] else [e.line], n, r);
    AfterPrefix([], n);
  }

  lemma AtTail(source: seq<string>, pos: nat, line: string, rest: seq<string>)
    requires At(source, pos, [line] + rest)
    ensures pos < |source| && source[pos] == line && At(source, pos + 1, rest)
  {
    assert source[pos..pos + 1 + |rest|][0] == line;
    assert source[pos + 1..pos + 1 + |rest|] == ([line] + rest)[1..];
  }

  lemma ConsAppend(c: Command, a: seq<Command>, b: seq<Command>)
    ensures ([c] + a) + b == [c] + (a + b)
    ensures ([c] + (a + b))[0] == c && ([c] + (a + b))[1..] == a + b
  {
  }

  /** Replaying a hunk's edits at its own place emits its new side and consumes its old side. */
  lemma {:induction false} ReplayEdits(source: seq<string>, pos: nat, edits: seq<Edit>, rest: seq<Command>)
    requires At(source, pos, OldSide(edits))
    ensures Replay(source, pos, EditCommands(edits) + rest)
            == Prepend(NewSide(edits), Replay(source, pos + |OldSide(edits)|, rest))
    decreases |edits|
  {
    if edits == [] {
      assert [] + rest == rest;
      PrependAssoc([], [], Replay(source, pos, rest));
    } else {
      var e, tail := edits[0], edits[1..];
      var next := if e.Insert? then pos else pos + 1;
      var r := Replay(source, pos + |OldSide(edits)|, rest);
      SidesFirst(edits);
      OldSideNext(source, pos, e, OldSide(tail));
      ReplayEdits(source, next, tail, rest);
      ReplayEdit(source, pos, e, EditCommands(tail) + rest, NewSide(tail), r);
      ConcatAssoc([EditCommand(e)], EditCommands(tail), rest);
    }
  }

  lemma SidesFirst(edits: seq<Edit>)
    requires edits != []
    ensures OldSide(edits) == (if edits[0].Insert? then [] else [edits[0].line]) + OldSide(edits[1..])
    ensures NewSide(edits) == (if edits[0].Delete? then [] else [edits[0].line]) + NewSide(edits[1..])
    ensures EditCommands(edits) == [EditCommand(edits[0])] + EditCommands(edits[1..])
  {
  }

  lemma OldSideNext(source: seq<string>, pos: nat, e: Edit, rest: seq<string>)
    requires At(source, pos, (if e.Insert? then [] else [e.line]) + rest)
    ensures if e.Insert? then At(source, pos, rest)
            else pos < |source| && source[pos] == e.line && At(source, pos + 1, rest)
  {
    if e.Insert? {
      AfterPrefix([], rest);
    } else {
      AtTail(source, pos, e.line, rest);
    }
  }

  /** Starting one line early only copies that line first, when the next hunk lies further on. */
  lemma OneLineEarly(source: seq<string>, pos: nat, hunks: seq<Hunk>)
    requires 0 < pos <= |source|
    requires hunks != [] ==> pos < hunks[0].oldStart <= |source|
    ensures Replay(source, pos - 1, HunkCommands(hunks)) == Prepend([source[pos - 1]], Replay(source, pos, HunkCommands(hunks)))
  {
    if hunks == [] {
      assert source[pos - 1..] == [source[pos - 1]] + source[pos..];
    } else {
      OneLineEarlyTo(source, pos, First(hunks[0]), HunkCommands(hunks));
    }
  }

  lemma OneLineEarlyTo(source: seq<string>, pos: nat, first: nat, cs: seq<Command>)
    requires 0 < pos < first <= |source| + 1
    requires cs != [] && cs[0] == Goto(first)
    ensures Replay(source, pos - 1, cs) == Prepend([source[pos - 1]], Replay(source, pos, cs))
  {
    var after := Replay(source, first - 1, cs[1..]);
    GotoGap(source, pos - 1, first - 1, cs, after);
    SliceCons(source, pos - 1, first - 1);
    if pos < first - 1 {
      GotoGap(source, pos, first - 1, cs, after);
    } else {
      GotoHere(source, pos, cs, after);
    }
    PrependAssoc([source[pos - 1]], source[pos..first - 1], after);
  }

  /** A header that leads to where the replay stands copies nothing. */
  lemma GotoHere(source: seq<string>, i: nat, cs: seq<Command>, after: Result<seq<string>, Error>)
    requires i <= |source| && cs != [] && cs[0] == Goto(i + 1)
    requires Replay(source, i, cs[1..]) == after
    ensures Replay(source, i, cs) == Prepend(source[i..i], after)
  {
    assert source[i..i] == [];
    PrependAssoc([], [], after);
  }

  lemma SliceCons(source: seq<string>, lo: nat, hi: nat)
    requires lo < hi <= |source|
    ensures source[lo..hi] == [source[lo]] + source[lo + 1..hi]
  {
  }

  /** A header that leads further on copies the lines up to it. */
  lemma GotoGap(source: seq<string>, i: nat, start: nat, cs: seq<Command>, after: Result<seq<string>, Error>)
    requires i < start <= |source| && cs != [] && cs[0] == Goto(start + 1)
    requires Replay(source, start, cs[1..]) == after
    ensures Replay(source, i, cs) == Prepend(source[i..start], after)
  {
  }

  /** Two texts that differ only in whether `line` comes before or after `inserted` are the same
      exactly when `inserted` repeats `line`. */
  lemma {:induction false} Commute(inserted: seq<string>, line: string)
    ensures inserted + [line] == [line] + inserted <==> AllAre(inserted, line)
  {
    if inserted + [line] == [line] + inserted {
      CommutingIsConstant(inserted, line, |inserted|);
    }
  }

  lemma {:induction false} CommutingIsConstant(inserted: seq<string>, line: string, n: nat)
    requires inserted + [line] == [line] + inserted && n <= |inserted|
    ensures forall k | 0 <= k < n :: inserted[k] == line
  {
    if n > 0 {
      CommutingIsConstant(inserted, line, n - 1);
      assert (inserted + [line])[n - 1] == ([line] + inserted)[n - 1];
    }
  }

  /** A replay that succeeds with as many lines as are wanted, and with those lines exactly when `good`. */
  ghost predicate Matches(r: Result<seq<string>, Error>, wanted: seq<string>, good: bool) {
    r.Ok? && |r.value| == |wanted| && (r.value == wanted <==> good)
  }

  /** The replay of `hunks` from line `i` on, against the new file from line `j` on. */
  ghost predicate Replayed(before: seq<string>, after: seq<string>, hunks: seq<Hunk>, i: nat, j: nat)
    requires j <= |after|
  {
    Matches(Replay(before, i, HunkCommands(hunks)), after[j..], Repeating(before, hunks, i))
  }

  /** Putting lines in front of a replay: `x` stands where `y` is wanted. */
  lemma MatchesAfter(r: Result<seq<string>, Error>, a: seq<string>, x: seq<string>, tail: Result<seq<string>, Error>,
                     all: seq<string>, y: seq<string>, wanted: seq<string>, good: bool)
    requires r == Prepend(a + x, tail) && all == a + y + wanted
    requires Matches(tail, wanted, good) && |x| == |y|
    ensures Matches(r, all, x == y && good)
  {
    SamePieces(a, x, tail.value, y, wanted);
  }

  /** What one hunk emits when the replay has reached line `i` and the hunk's header leads to `start`. */
  lemma HunkOutput(source: seq<string>, i: nat, start: nat, first: nat, edits: seq<Edit>, rest: seq<Command>,
                   n: seq<string>, r: Result<seq<string>, Error>)
    requires i <= start && At(source, start, OldSide(edits))
    requires first == start + 1 || (start == i && first <= i + 1)
    requires n == NewSide(edits) && r == Replay(source, start + |OldSide(edits)|, rest)
    ensures Replay(source, i, ThenHunk(first, edits, rest)) == Prepend(source[i..start] + n, r)
  {
    ConsAppend(Goto(first), EditCommands(edits), rest);
    ReplayEdits(source, start, edits, rest);
    if start == i {
      assert source[i..start] == [];
      AfterPrefix([], n);
    } else {
      GotoGap(source, i, start, ThenHunk(first, edits, rest), Prepend(n, r));
      PrependAssoc(source[i..start], n, r);
    }
  }

  /** One hunk in its place, given the replay of those after it. */
  lemma ReplayPlaced(before: seq<string>, after: seq<string>, hunks: seq<Hunk>, i: nat, j: nat)
    requires i <= |before| && j <= |after| && hunks != [] && !PureInsertion(hunks[0], i)
    requires ValidHunks(before, after, hunks, i, j)
    requires Replayed(before, after, hunks[1..], hunks[0].oldStart + |OldSide(hunks[0].edits)|,
                      hunks[0].newStart + |NewSide(hunks[0].edits)|)
    ensures Replayed(before, after, hunks, i, j)
  {
    var h, rest := hunks[0], hunks[1..];
    var m, n := OldSide(h.edits), NewSide(h.edits);
    HunkPlaced(before, after, i, j, h, HunkCommands(rest), Repeating(before, rest, h.oldStart + |m|));
  }

  lemma HunkPlaced(before: seq<string>, after: seq<string>, i: nat, j: nat, h: Hunk, rest: seq<Command>, good: bool)
    requires i <= h.oldStart <= |before| && !PureInsertion(h, i)
    requires h.newStart == j + (h.oldStart - i)
    requires At(after, j, before[i..h.oldStart])
    requires At(before, h.oldStart, OldSide(h.edits)) && At(after, h.newStart, NewSide(h.edits))
    requires Matches(Replay(before, h.oldStart + |OldSide(h.edits)|, rest), after[h.newStart + |NewSide(h.edits)|..], good)
    ensures Matches(Replay(before, i, ThenHunk(First(h), h.edits, rest)), after[j..], good)
  {
    var n, r := NewSide(h.edits), Replay(before, h.oldStart + |OldSide(h.edits)|, rest);
    var common, wanted := before[i..h.oldStart], after[h.newStart + |n|..];
    TwoPieces(after, j, common, n);
    HunkOutput(before, i, h.oldStart, First(h), h.edits, rest, n, r);
    MatchesAfter(Replay(before, i, ThenHunk(First(h), h.edits, rest)), common, n, r, after[j..], n, wanted, good);
  }

  /** A misplaced hunk: the line above it comes after the lines it inserts. */
  lemma MisplacedOutput(before: seq<string>, i: nat, k: nat, edits: seq<Edit>, rest: seq<Command>)
    requires i < k <= |before| && OldSide(edits) == []
    requires Replay(before, k - 1, rest) == Prepend([before[k - 1]], Replay(before, k, rest))
    ensures Replay(before, i, ThenHunk(k, edits, rest))
            == Prepend(before[i..k - 1] + (NewSide(edits) + [before[k - 1]]), Replay(before, k, rest))
  {
    HunkOutput(before, i, k - 1, k, edits, rest, NewSide(edits), Replay(before, k - 1, rest));
    ThenOneLine(before[i..k - 1], NewSide(edits), before[k - 1], Replay(before, k, rest));
  }

  lemma ThenOneLine(a: seq<string>, b: seq<string>, line: string, inner: Result<seq<string>, Error>)
    ensures Prepend(a + b, Prepend([line], inner)) == Prepend(a + (b + [line]), inner)
  {
    PrependAssoc(a + b, [line], inner);
    ConcatAssoc(a, b, [line]);
  }

  lemma ReplayMisplaced(before: seq<string>, after: seq<string>, hunks: seq<Hunk>, i: nat, j: nat)
    requires i <= |before| && j <= |after| && hunks != [] && PureInsertion(hunks[0], i)
    requires ValidHunks(before, after, hunks, i, j) && Spaced(hunks, i)
    requires Replayed(before, after, hunks[1..], hunks[0].oldStart, hunks[0].newStart + |NewSide(hunks[0].edits)|)
    ensures Replayed(before, after, hunks, i, j)
  {
    var h, rest := hunks[0], hunks[1..];
    assert rest != [] ==> rest[0] == hunks[1];
    OneLineEarly(before, h.oldStart, rest);
    HunkMisplaced(before, after, i, j, h, HunkCommands(rest), Repeating(before, rest, h.oldStart));
  }

  lemma HunkMisplaced(before: seq<string>, after: seq<string>, i: nat, j: nat, h: Hunk, rest: seq<Command>, good: bool)
    requires i < h.oldStart <= |before| && OldSide(h.edits) == []
    requires h.newStart == j + (h.oldStart - i)
    requires At(after, j, before[i..h.oldStart]) && At(after, h.newStart, NewSide(h.edits))
    requires Replay(before, h.oldStart - 1, rest) == Prepend([before[h.oldStart - 1]], Replay(before, h.oldStart, rest))
    requires Matches(Replay(before, h.oldStart, rest), after[h.newStart + |NewSide(h.edits)|..], good)
    ensures Matches(Replay(before, i, ThenHunk(First(h), h.edits, rest)), after[j..],
                    AllAre(NewSide(h.edits), before[h.oldStart - 1]) && good)
  {
    var n, k := NewSide(h.edits), h.oldStart;
    var line, wanted := before[k - 1], after[h.newStart + |n|..];
    MisplacedOutput(before, i, k, h.edits, rest);
    Commute(n, line);
    TwoPieces(after, j, before[i..k], n);
    Regroup(before, i, k, n);
    MatchesAfter(Replay(before, i, ThenHunk(First(h), h.edits, rest)), before[i..k - 1], n + [line], Replay(before, k, rest),
                 after[j..], [line] + n, wanted, good);
  }

  lemma Regroup(before: seq<string>, i: nat, k: nat, n: seq<string>)
    requires i < k <= |before|
    ensures before[i..k] + n == before[i..k - 1] + ([before[k - 1]] + n)
  {
  }

  lemma TwoPieces(whole: seq<string>, j: nat, a: seq<string>, b: seq<string>)
    requires At(whole, j, a) && At(whole, j + |a|, b)
    ensures whole[j..] == a + b + whole[j + |a| + |b|..]
  {
  }

  lemma ReplayNone(before: seq<string>, after: seq<string>, i: nat, j: nat)
    requires i <= |before| && j <= |after| && before[i..] == after[j..]
    ensures Replayed(before, after, [], i, j)
  {
    assert HunkCommands([]) == [];
  }

  lemma ReplayHunk(before: seq<string>, after: seq<string>, hunks: seq<Hunk>, i: nat, j: nat)
    requires i <= |before| && j <= |after| && hunks != []
    requires ValidHunks(before, after, hunks, i, j) && Spaced(hunks, i)
    requires Replayed(before, after, hunks[1..], hunks[0].oldStart + |OldSide(hunks[0].edits)|,
                      hunks[0].newStart + |NewSide(hunks[0].edits)|)
    ensures Replayed(before, after, hunks, i, j)
  {
    if PureInsertion(hunks[0], i) {
      ReplayMisplaced(before, after, hunks, i, j);
    } else {
      ReplayPlaced(before, after, hunks, i, j);
    }
  }

  lemma SamePieces(a: seq<string>, x: seq<string>, b: seq<string>, y: seq<string>, c: seq<string>)
    requires |x| == |y| && |b| == |c|
    ensures a + x + b == a + y + c <==> x == y && b == c
  {
    var l, r := a + x + b, a + y + c;
    assert l[|a|..|a| + |x|] == x && r[|a|..|a| + |x|] == y;
    assert l[|a| + |x|..] == b && r[|a| + |x|..] == c;
  }

  /** For every pair of files and every valid grouping, replaying the hunks succeeds with as many
      lines as the new file has left, and they are the new file's lines if and only if each pure
      insertion repeats the line above it. */
  lemma {:induction false} ReplayIsExact(before: seq<string>, after: seq<string>, hunks: seq<Hunk>, i: nat, j: nat)
    requires i <= |before| && j <= |after|
    requires ValidHunks(before, after, hunks, i, j) && Spaced(hunks, i)
    ensures Replayed(before, after, hunks, i, j)
    decreases |hunks|
  {
    if hunks == [] {
      ReplayNone(before, after, i, j);
    } else {
      var h := hunks[0];
      ReplayIsExact(before, after, hunks[1..], h.oldStart + |OldSide(h.edits)|, h.newStart + |NewSide(h.edits)|);
      ReplayHunk(before, after, hunks, i, j);
    }
  }

  /** With an old line in every hunk, as context gives, nothing is misplaced. */
  lemma {:induction false} AnchoredIsExact(before: seq<string>, hunks: seq<Hunk>, i: nat)
    requires Anchored(hunks, i)
    ensures Spaced(hunks, i) && Repeating(before, hunks, i)
  {
    if hunks != [] {
      AnchoredIsExact(before, hunks[1..], hunks[0].oldStart + |OldSide(hunks[0].edits)|);
    }
  }

  // ---------- Whole texts ----------

  lemma {:induction false} EditLines(edits: seq<Edit>, k: nat)
    requires k < |edits|
    ensures edits[k].line in OldSide(edits) || edits[k].line in NewSide(edits)
  {
    if k > 0 {
      EditLines(edits[1..], k - 1);
    }
  }

  lemma {:induction false} ValidHunksAreClean(before: seq<string>, after: seq<string>, hunks: seq<Hunk>, i: nat, j: nat)
    requires i <= |before| && j <= |after| && AllOneLine(before) && AllOneLine(after)
    requires ValidHunks(before, after, hunks, i, j)
    ensures CleanHunks(hunks)
    decreases |hunks|
  {
    if hunks != [] {
      var h := hunks[0];
      var m, n := OldSide(h.edits), NewSide(h.edits);
      forall k | 0 <= k < |h.edits|
        ensures OneLine(h.edits[k].line)
      {
        EditLines(h.edits, k);
        if h.edits[k].line in m {
          assert h.edits[k].line in before[h.oldStart..h.oldStart + |m|];
        } else {
          assert h.edits[k].line in after[h.newStart..h.newStart + |n|];
        }
      }
      ValidHunksAreClean(before, after, hunks[1..], h.oldStart + |m|, h.newStart + |n|);
    }
  }

  predicate LastLineShown(lines: seq<string>) {
    lines == [] || lines[|lines| - 1] != ""
  }

  /** How rendered lines read back: all of them, unless the last one is empty, which is lost. */
  lemma RenderedLines(lines: seq<string>, newline: bool)
    requires AllOneLine(lines)
    ensures SplitLines(Rendered(lines, newline)) == if LastLineShown(lines) then lines else lines[..|lines| - 1]
    ensures newline && LastLineShown(lines) ==> Rendered(lines, newline) == Terminated(lines)
  {
    if lines != [] {
      Snoc(lines);
      RenderedSnoc(lines[..|lines| - 1], lines[|lines| - 1], newline);
    }
  }

  lemma Snoc(lines: seq<string>)
    requires lines != []
    ensures lines == lines[..|lines| - 1] + [lines[|lines| - 1]]
  {
  }

  lemma RenderedSnoc(init: seq<string>, last: string, newline: bool)
    requires AllOneLine(init) && OneLine(last)
    ensures SplitLines(Rendered(init + [last], newline)) == if last != "" then init + [last] else init
    ensures newline && last != "" ==> Rendered(init + [last], newline) == Terminated(init + [last])
  {
    JoinSnoc(init, last);
    var content := Join(init + [last]);
    SplitTerminated(init);
    TerminatedEnds(init);
    if last == "" {
      assert content == Terminated(init);
    } else {
      LastChar(Terminated(init), last);
      SplitUnterminated(init, last);
      SplitTerminated(init + [last]);
      TerminatedIsJoin(init + [last]);
    }
  }

  lemma LastChar(a: string, b: string)
    requires OneLine(b) && b != ""
    ensures a + b != "" && !EndsWithNewline(a + b)
  {
    assert (a + b)[|a + b| - 1] == b[|b| - 1];
  }

  /** Text whose lines all end in one newline and whose last line is not blank. */
  ghost predicate Plain(text: string) {
    LastLineShown(SplitLines(text)) && text == Terminated(SplitLines(text))
  }

  /** The round trip on texts. Applying the printed diff never fails. The result has exactly the
      new file's lines if and only if no pure insertion is misplaced and the new file does not end
      in a blank line; it is the new text itself if and only if that text is plain as well. */
  lemma RoundTrip(before: string, after: string, path: string, hunks: seq<Hunk>)
    requires OneLine(path)
    requires ValidHunks(SplitLines(before), SplitLines(after), hunks, 0, 0) && Spaced(hunks, 0)
    ensures Applied(before, GenerateDiff(path, hunks)).Ok?
    ensures var t := Applied(before, GenerateDiff(path, hunks)).value;
      SplitLines(t) == SplitLines(after) <==> Repeating(SplitLines(before), hunks, 0) && LastLineShown(SplitLines(after))
    ensures var t := Applied(before, GenerateDiff(path, hunks)).value;
      hunks != [] ==> (t == after <==> Repeating(SplitLines(before), hunks, 0) && Plain(after))
  {
    var b, a := SplitLines(before), SplitLines(after);
    ValidHunksAreClean(b, a, hunks, 0, 0);
    AppliedReplays(before, path, hunks);
    ReplayIsExact(b, a, hunks, 0, 0);
    ReplayedAreOneLine(b, 0, hunks);
    WholeSuffix(a);
    RenderedMatches(Replay(b, 0, HunkCommands(hunks)), after, Repeating(b, hunks, 0), EndsWithNewline(before) || hunks != []);
  }

  lemma WholeSuffix(lines: seq<string>)
    ensures lines[0..] == lines
  {
  }

  /** Applying a printed diff replays the hunks it was printed from. */
  lemma AppliedReplays(before: string, path: string, hunks: seq<Hunk>)
    requires OneLine(path) && CleanHunks(hunks)
    ensures var r := Replay(SplitLines(before), 0, HunkCommands(hunks));
      Applied(before, GenerateDiff(path, hunks))
      == if r.Ok? then Ok(Rendered(r.value, EndsWithNewline(before) || hunks != [])) else Err(r.error)
  {
    ReadsDiff(path, hunks);
  }

  lemma RenderedMatches(r: Result<seq<string>, Error>, after: string, good: bool, newline: bool)
    requires Matches(r, SplitLines(after), good) && AllOneLine(r.value)
    ensures SplitLines(Rendered(r.value, newline)) == SplitLines(after) <==> good && LastLineShown(SplitLines(after))
    ensures newline ==> (Rendered(r.value, newline) == after <==> good && Plain(after))
  {
    RenderedLines(r.value, newline);
  }

  lemma {:induction false} OneLineCommands(source: seq<string>, pos: nat, cs: seq<Command>)
    requires AllOneLine(source)
    requires forall k | 0 <= k < |cs| :: cs[k].Added? ==> OneLine(cs[k].line)
    ensures Replay(source, pos, cs).Ok? ==> AllOneLine(Replay(source, pos, cs).value)
    decreases |cs|
  {
    if cs != [] {
      match cs[0]
      case Goto(first) => OneLineCommands(source, if first <= pos + 1 then pos else first - 1, cs[1..]);
      case Context => OneLineCommands(source, pos + 1, cs[1..]);
      case Removed => OneLineCommands(source, pos + 1, cs[1..]);
      case Added(_) => OneLineCommands(source, pos, cs[1..]);
      case Note => OneLineCommands(source, pos, cs[1..]);
      case _ =>
    }
  }

  lemma {:induction false} CommandsOneLine(hunks: seq<Hunk>)
    requires CleanHunks(hunks)
    ensures forall k | 0 <= k < |HunkCommands(hunks)| ::
              HunkCommands(hunks)[k].Added? ==> OneLine(HunkCommands(hunks)[k].line)
  {
    if hunks != [] {
      EditCommandsOneLine(hunks[0].edits);
      CommandsOneLine(hunks[1..]);
    }
  }

  lemma {:induction false} EditCommandsOneLine(edits: seq<Edit>)
    requires CleanEdits(edits)
    ensures forall k | 0 <= k < |EditCommands(edits)| ::
              EditCommands(edits)[k].Added? ==> OneLine(EditCommands(edits)[k].line)
  {
    if edits != [] {
      EditCommandsOneLine(edits[1..]);
    }
  }

  lemma ReplayedAreOneLine(source: seq<string>, pos: nat, hunks: seq<Hunk>)
    requires AllOneLine(source) && CleanHunks(hunks)
    ensures Replay(source, pos, HunkCommands(hunks)).Ok? ==> AllOneLine(Replay(source, pos, HunkCommands(hunks)).value)
  {
    CommandsOneLine(hunks);
    OneLineCommands(source, pos, HunkCommands(hunks));
  }

  lemma MisplacedReplay(a: string, x: string, b: string)
    ensures var hunks := [Hunk(1, 1, [Insert(x)])];
      && ValidHunks([a, b], [a, x, b], hunks, 0, 0) && Spaced(hunks, 0)
      && Replay([a, b], 0, HunkCommands(hunks)) == Ok([x, a, b])
  {
    var edits := [Insert(x)];
    var hunks := [Hunk(1, 1, edits)];
    var source := [a, b];
    assert OldSide(edits) == [] && NewSide(edits) == [x];
    assert ValidHunks(source, [a, x, b], hunks[1..], 1, 2);
    assert hunks[1..] == [] && HunkCommands([]) == [];
    assert source[0..] == source;
    assert Replay(source, 0, []) == Ok(source);
    HunkOutput(source, 0, 0, 1, edits, [], [x], Ok(source));
    assert source[0..0] + [x] == [x] && [x] + source == [x, a, b];
  }

  /** Inserting the line "x" between "a" and "b" without context: the printed diff, applied to the text, puts the
      line one place too early. */
  lemma MisplacedInsertion(path: string)
    requires OneLine(path)
    ensures var hunks := [Hunk(1, 1, [Insert("x")])];
      var before, after := Terminated(["a", "b"]), Terminated(["a", "x", "b"]);
      && ValidHunks(SplitLines(before), SplitLines(after), hunks, 0, 0) && Spaced(hunks, 0)
      && Applied(before, GenerateDiff(path, hunks)) == Ok(Terminated(["x", "a", "b"]))
      && Terminated(["x", "a", "b"]) != after
  {
    MisplacedText(path, "a", "x", "b", ["a", "b"], ["a", "x", "b"], ["x", "a", "b"], [Hunk(1, 1, [Insert("x")])]);
  }

  lemma ThreeOneLine(a: string, b: string, c: string)
    requires OneLine(a) && OneLine(b) && OneLine(c)
    ensures AllOneLine([a, b, c]) && AllOneLine([a, b])
  {
  }

  lemma MisplacedText(path: string, a: string, x: string, b: string, before: seq<string>, after: seq<string>,
      got: seq<string>, hunks: seq<Hunk>)
    requires OneLine(path) && OneLine(a) && OneLine(x) && OneLine(b) && b != "" && a != x
    requires before == [a, b] && after == [a, x, b] && got == [x, a, b] && hunks == [Hunk(1, 1, [Insert(x)])]
    ensures ValidHunks(SplitLines(Terminated(before)), SplitLines(Terminated(after)), hunks, 0, 0) && Spaced(hunks, 0)
    ensures Applied(Terminated(before), GenerateDiff(path, hunks)) == Ok(Terminated(got))
    ensures Terminated(got) != Terminated(after)
  {
    MisplacedReplay(a, x, b);
    ThreeOneLine(a, x, b);
    ThreeOneLine(a, b, b);
    ThreeOneLine(x, a, b);
    AppliedElsewhere(path, before, after, hunks, [x, a], b, got);
  }

  lemma AppliedElsewhere(path: string, before: seq<string>, after: seq<string>, hunks: seq<Hunk>, init: seq<string>,
      last: string, got: seq<string>)
    requires OneLine(path) && AllOneLine(before) && AllOneLine(after) && AllOneLine(got)
    requires ValidHunks(before, after, hunks, 0, 0) && hunks != []
    requires got == init + [last] && last != "" && Replay(before, 0, HunkCommands(hunks)) == Ok(got)
    requires after != [] && got[0] != after[0]
    ensures ValidHunks(SplitLines(Terminated(before)), SplitLines(Terminated(after)), hunks, 0, 0)
    ensures Applied(Terminated(before), GenerateDiff(path, hunks)) == Ok(Terminated(got))
    ensures Terminated(got) != Terminated(after)
  {
    ValidHunksAreClean(before, after, hunks, 0, 0);
    assert OneLine(got[|got| - 1]);
    AppliedTo(path, before, hunks, init, last);
    SplitTerminated(before);
    DifferentTexts(got, after);
  }

  lemma DifferentTexts(p: seq<string>, q: seq<string>)
    requires AllOneLine(p) && AllOneLine(q) && p != [] && q != [] && p[0] != q[0]
    ensures Terminated(p) != Terminated(q) && SplitLines(Terminated(q)) == q
  {
    SplitTerminated(p);
    SplitTerminated(q);
  }

  lemma AppliedTo(path: string, before: seq<string>, hunks: seq<Hunk>, init: seq<string>, last: string)
    requires OneLine(path) && CleanHunks(hunks) && hunks != [] && AllOneLine(before) && OneLine(last) && last != ""
    requires Replay(before, 0, HunkCommands(hunks)) == Ok(init + [last])
    ensures Applied(Terminated(before), GenerateDiff(path, hunks)) == Ok(Terminated(init + [last]))
  {
    SplitTerminated(before);
    AppliedReplays(Terminated(before), path, hunks);
    RenderedTerminated(init, last);
  }

  /** Lines of which the last is not blank are written with a newline after each. */
  lemma RenderedTerminated(init: seq<string>, last: string)
    requires OneLine(last) && last != ""
    ensures Rendered(init + [last], true) == Terminated(init + [last])
  {
    TerminatedIsJoin(init + [last]);
    JoinSnoc(init, last);
    var content := Join(init + [last]);
    assert content[|content| - 1] == last[|last| - 1] && !IsBoundary(last[|last| - 1]);
  }
}
