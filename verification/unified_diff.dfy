/** Printing a unified diff and replaying it (harness/file_editor.py).
    The format is the "Diff -u or -U Output Format" of POSIX.1-2008 `diff`. */
module UnifiedDiff {
  import opened Text

  datatype Error =
    | NoTargetPath
    | BadHunkHeader(line: string)
    | SourceExhausted              // a hunk starts past the end of the file: the list index is out of range
    | ContextExceedsSource
    | UnsupportedLine(line: string)

  // ---------- Hunks: what the differ hands over ----------

  datatype Edit = Keep(line: string) | Delete(line: string) | Insert(line: string)

  datatype Hunk = Hunk(oldStart: nat, newStart: nat, edits: seq<Edit>)

  function OldSide(edits: seq<Edit>): seq<string> {
    if edits == [] then []
    else (if edits[0].Insert? then [] else [edits[0].line]) + OldSide(edits[1..])
  }

  function NewSide(edits: seq<Edit>): seq<string> {
    if edits == [] then []
    else (if edits[0].Delete? then [] else [edits[0].line]) + NewSide(edits[1..])
  }

  /** `part` stands in `whole` at `at`. */
  ghost predicate At(whole: seq<string>, at: nat, part: seq<string>) {
    at + |part| <= |whole| && whole[at..at + |part|] == part
  }

  /** The hunks turn `before[i..]` into `after[j..]`: they come in order, each shows the two sides it
      claims to, and the lines between two hunks are the same in both files. Every alignment a
      differ may choose, cut into hunks with any amount of context, has this form. */
  ghost predicate ValidHunks(before: seq<string>, after: seq<string>, hunks: seq<Hunk>, i: nat, j: nat)
    requires i <= |before| && j <= |after|
  {
    if hunks == [] then before[i..] == after[j..] else
      var h := hunks[0];
      && i <= h.oldStart <= |before|
      && h.newStart == j + (h.oldStart - i)
      && At(after, j, before[i..h.oldStart])
      && At(before, h.oldStart, OldSide(h.edits))
      && At(after, h.newStart, NewSide(h.edits))
      && ValidHunks(before, after, hunks[1..], h.oldStart + |OldSide(h.edits)|, h.newStart + |NewSide(h.edits)|)
  }

  /** The hunk shows no line of the old file and does not start where the last one ended. */
  predicate PureInsertion(h: Hunk, i: nat) {
    OldSide(h.edits) == [] && i < h.oldStart
  }

  /** Two hunks that follow a pure insertion do not touch it, as in any grouping where at least
      one unchanged line separates hunks. */
  predicate Spaced(hunks: seq<Hunk>, i: nat) {
    hunks == [] || (
      && (PureInsertion(hunks[0], i) && |hunks| > 1 ==> hunks[0].oldStart < hunks[1].oldStart)
      && Spaced(hunks[1..], hunks[0].oldStart + |OldSide(hunks[0].edits)|))
  }

  /** Each hunk shows an old line, or starts where the last one ended. Context makes it so
      whenever the old file has a line at all. */
  predicate Anchored(hunks: seq<Hunk>, i: nat) {
    hunks == [] || (
      && !PureInsertion(hunks[0], i)
      && Anchored(hunks[1..], hunks[0].oldStart + |OldSide(hunks[0].edits)|))
  }

  predicate AllAre(lines: seq<string>, line: string) {
    forall k | 0 <= k < |lines| :: lines[k] == line
  }

  /** Each pure insertion only repeats the line it follows. */
  predicate Repeating(before: seq<string>, hunks: seq<Hunk>, i: nat) {
    hunks == [] || (
      && (PureInsertion(hunks[0], i) && hunks[0].oldStart <= |before| ==>
            AllAre(NewSide(hunks[0].edits), before[hunks[0].oldStart - 1]))
      && Repeating(before, hunks[1..], hunks[0].oldStart + |OldSide(hunks[0].edits)|))
  }

  // ---------- Printing ----------

  function FormatCount(length: nat): string {
    if length == 1 then "" else "," + Decimal(length)
  }

  function FormatRange(first: nat, length: nat): string {
    Decimal(first) + FormatCount(length)
  }

  /** The number a header shows for a range: an empty one shows the line before it. */
  function FirstLine(start: nat, length: nat): nat {
    if length == 0 then start else start + 1
  }

  function FormatHeader(first: nat, length: nat, first': nat, length': nat): string {
    "@@ -" + (FormatRange(first, length) + (" +" + (FormatRange(first', length') + " @@")))
  }

  function PrintHeader(h: Hunk): string {
    var m, n := |OldSide(h.edits)|, |NewSide(h.edits)|;
    FormatHeader(FirstLine(h.oldStart, m), m, FirstLine(h.newStart, n), n)
  }

  function PrintEdit(e: Edit): string {
    match e
    case Keep(line) => " " + line
    case Delete(line) => "-" + line
    case Insert(line) => "+" + line
  }

  function PrintEdits(edits: seq<Edit>): seq<string> {
    if edits == [] then [] else [PrintEdit(edits[0])] + PrintEdits(edits[1..])
  }

  function PrintHunks(hunks: seq<Hunk>): seq<string> {
    if hunks == [] then [] else [PrintHeader(hunks[0])] + PrintEdits(hunks[0].edits) + PrintHunks(hunks[1..])
  }

  function FromLine(path: string): string {
    "--- " + path
  }

  function ToLine(path: string): string {
    "+++ " + path
  }

  function PrintLines(path: string, hunks: seq<Hunk>): seq<string> {
    if hunks == [] then [] else [FromLine(path), ToLine(path)] + PrintHunks(hunks)
  }

  /** `generate_diff`, with the differ's answer as an argument. */
  function GenerateDiff(path: string, hunks: seq<Hunk>): string {
    var lines := PrintLines(path, hunks);
    Join(lines) + (if lines == [] then "" else "\n")
  }

  // ---------- Reading ----------

  /** Reads `(\d+)`: the number and what follows it. */
  function ReadNumber(s: string): Option<(nat, string)> {
    var n := DigitRun(s);
    if n == 0 then None else Some((DecimalValue(s[..n]), s[n..]))
  }

  /** Reads `(\d+)(?:,(\d+))?`: the first number and what follows the match. */
  function ReadRange(s: string): Option<(nat, string)> {
    match ReadNumber(s)
    case None => None
    case Some((first, rest)) =>
      if rest == "" || rest[0] != ',' then Some((first, rest)) else
        match ReadNumber(rest[1..])
        case None => Some((first, rest))
        case Some((_, rest')) => Some((first, rest'))
  }

  /** Matches a line against `^@@ -(\d+)(?:,(\d+))? \+(\d+)(?:,(\d+))? @@`; the first group. */
  function HunkOldStart(header: string): Option<nat> {
    if |header| < 4 || !IsHunkHeader(header) || header[2] != ' ' || header[3] != '-' then None
    else AfterOldRange(ReadRange(header[4..]))
  }

  function AfterOldRange(r: Option<(nat, string)>): Option<nat> {
    match r
    case None => None
    case Some((first, rest)) =>
      if |rest| < 2 || rest[0] != ' ' || rest[1] != '+' then None else AfterNewRange(first, ReadRange(rest[2..]))
  }

  function AfterNewRange(first: nat, r: Option<(nat, string)>): Option<nat> {
    match r
    case None => None
    case Some((_, rest)) => if |rest| >= 3 && rest[0] == ' ' && IsHunkHeader(rest[1..]) then Some(first) else None
  }

  predicate IsHunkHeader(line: string) {
    |line| >= 2 && line[0] == '@' && line[1] == '@'
  }

  /** What a line of the diff asks for. */
  datatype Command =
    | Goto(first: nat)         // a hunk header: the old line it starts at, counted from one
    | BadHeader(line: string)
    | Context
    | Removed
    | Added(line: string)
    | Note                     // "\\ No newline at end of file"
    | Unknown(line: string)

  function ReadCommand(line: string): Command {
    if IsHunkHeader(line) then
      match HunkOldStart(line)
      case Some(first) => Goto(first)
      case None => BadHeader(line)
    else if line == "" || line[0] == ' ' then Context
    else if line[0] == '-' then Removed
    else if line[0] == '+' then Added(line[1..])
    else if line[0] == '\\' then Note
    else Unknown(line)
  }

  predicate IsHeader(c: Command) {
    c.Goto? || c.BadHeader?
  }

  function ReadCommands(d: seq<string>): (cs: seq<Command>)
    ensures |cs| == |d|
    ensures forall k | 0 <= k < |d| :: cs[k] == ReadCommand(d[k])
  {
    if d == [] then [] else [ReadCommand(d[0])] + ReadCommands(d[1..])
  }

  function DropPreamble(d: seq<string>): (r: seq<string>)
    ensures |r| <= |d| && r == d[|d| - |r|..]
    ensures r == [] || IsHunkHeader(r[0])
    ensures forall k | 0 <= k < |d| - |r| :: !IsHunkHeader(d[k])
  {
    if d == [] || IsHunkHeader(d[0]) then d else DropPreamble(d[1..])
  }

  function Prepend(lines: seq<string>, r: Result<seq<string>, Error>): Result<seq<string>, Error> {
    if r.Ok? then Ok(lines + r.value) else r
  }

  /** What the commands `cs` make of the source from line `pos` on. */
  function Replay(source: seq<string>, pos: nat, cs: seq<Command>): Result<seq<string>, Error>
    decreases |cs|
  {
    if cs == [] then Ok(if pos <= |source| then source[pos..] else []) else
      match cs[0]
      case BadHeader(line) => Err(BadHunkHeader(line))
      case Unknown(line) => Err(UnsupportedLine(line))
      case Goto(first) =>
        if first <= pos + 1 then Replay(source, pos, cs[1..])
        else if |source| < first - 1 then Err(SourceExhausted)
        else Prepend(source[pos..first - 1], Replay(source, first - 1, cs[1..]))
      case Context =>
        if |source| <= pos then Err(ContextExceedsSource)
        else Prepend([source[pos]], Replay(source, pos + 1, cs[1..]))
      case Removed => Replay(source, pos + 1, cs[1..])
      case Added(line) => Prepend([line], Replay(source, pos, cs[1..]))
      case Note => Replay(source, pos, cs[1..])
  }

  /** The text the replayed lines are written back as. */
  function Rendered(lines: seq<string>, newline: bool): string {
    var content := Join(lines);
    if newline && content != "" && !EndsWithNewline(content) then content + "\n" else content
  }

  function Applied(original: string, diff: string): Result<string, Error> {
    match Replay(SplitLines(original), 0, ReadCommands(DropPreamble(SplitLines(diff))))
    case Ok(lines) => Ok(Rendered(lines, EndsWithNewline(original) || '+' in diff))
    case Err(e) => Err(e)
  }

  lemma PrependAssoc(a: seq<string>, b: seq<string>, r: Result<seq<string>, Error>)
    ensures Prepend(a, Prepend(b, r)) == Prepend(a + b, r)
    ensures Prepend([], r) == r
  {
    if r.Ok? {
      assert a + (b + r.value) == (a + b) + r.value;
      assert [] + r.value == r.value;
    }
  }

  /** The hunk loop of `_apply_unified_diff`. */
  method ReplayHunks(source: seq<string>, cs: seq<Command>) returns (r: Result<seq<string>, Error>)
    requires cs == [] || IsHeader(cs[0])
    ensures r == Replay(source, 0, cs)
  {
    var result: seq<string> := [];
    var pos: nat, index: nat := 0, 0;
    ghost var whole := Replay(source, 0, cs);
    PrependAssoc([], [], whole);
    assert cs[index..] == cs;
    while index < |cs|
      invariant index <= |cs|
      invariant index < |cs| ==> IsHeader(cs[index])
      invariant whole == Prepend(result, Replay(source, pos, cs[index..]))
    {
      if cs[index].BadHeader? {
        return Err(BadHunkHeader(cs[index].line));
      }
      ghost var result0, pos0: nat := result, pos;
      while pos < cs[index].first - 1
        invariant pos0 <= pos
        invariant pos0 < pos ==> pos <= |source| && pos < cs[index].first
        invariant result == if pos0 < pos then result0 + source[pos0..pos] else result0
      {
        if |source| <= pos {
          return Err(SourceExhausted);
        }
        result := result + [source[pos]];
        pos := pos + 1;
      }
      if pos0 < pos {
        PrependAssoc(result0, source[pos0..pos], Replay(source, pos, cs[index + 1..]));
      }
      assert cs[index..][1..] == cs[index + 1..];
      index := index + 1;
      while index < |cs| && !IsHeader(cs[index])
        invariant index <= |cs|
        invariant whole == Prepend(result, Replay(source, pos, cs[index..]))
      {
        assert cs[index..][1..] == cs[index + 1..];
        match cs[index] {
          case Context =>
            if |source| <= pos {
              return Err(ContextExceedsSource);
            }
            PrependAssoc(result, [source[pos]], Replay(source, pos + 1, cs[index + 1..]));
            result := result + [source[pos]];
            pos := pos + 1;
          case Removed =>
            pos := pos + 1;
          case Added(line) =>
            PrependAssoc(result, [line], Replay(source, pos, cs[index + 1..]));
            result := result + [line];
          case Note =>
          case Unknown(line) =>
            return Err(UnsupportedLine(line));
        }
        index := index + 1;
      }
    }
    result := result + (if pos <= |source| then source[pos..] else []);
    r := Ok(result);
  }

  method SkipPreamble(d: seq<string>) returns (index: nat)
    ensures index <= |d| && d[index..] == DropPreamble(d)
  {
    index := 0;
    while index < |d| && !IsHunkHeader(d[index])
      invariant index <= |d|
      invariant DropPreamble(d[index..]) == DropPreamble(d)
    {
      assert d[index..][1..] == d[index + 1..];
      index := index + 1;
    }
  }

  /** `_apply_unified_diff` */
  method ApplyUnifiedDiff(original: string, diff: string) returns (r: Result<string, Error>)
    ensures r == Applied(original, diff)
  {
    var d := SplitLines(diff);
    var index := SkipPreamble(d);
    var lines := ReplayHunks(SplitLines(original), ReadCommands(d[index..]));
    if lines.Err? {
      return Err(lines.error);
    }
    r := Ok(Rendered(lines.value, EndsWithNewline(original) || '+' in diff));
  }
}
