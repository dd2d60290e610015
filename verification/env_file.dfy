/** Rewriting an env file: updating keys in place, dropping repeated assignments and appending the
    rest (scripts/env_writer.py). */
module EnvFile {
  import opened Text
  import opened EnvLine

  // ---------- Requests ----------

  /** One item of the `updates` dictionary; a list of them is the dictionary in its order. */
  datatype Entry = Entry(key: string, value: string)

  function Lookup(d: seq<Entry>, key: string): Option<string> {
    if d == [] then None else if d[0].key == key then Some(d[0].value) else Lookup(d[1..], key)
  }

  function Without(d: seq<Entry>, key: string): (r: seq<Entry>)
    ensures |r| <= |d|
  {
    if d == [] then [] else (if d[0].key == key then [] else [d[0]]) + Without(d[1..], key)
  }

  function KeysOf(d: seq<Entry>): (keys: seq<string>)
    ensures |keys| == |d|
    ensures forall k | 0 <= k < |d| :: keys[k] == d[k].key
  {
    if d == [] then [] else [d[0].key] + KeysOf(d[1..])
  }

  ghost predicate DistinctKeys(d: seq<Entry>) {
    forall i, j | 0 <= i < j < |d| :: d[i].key != d[j].key
  }

  /** Keys are names, values fit on a line. */
  ghost predicate CleanEntries(d: seq<Entry>) {
    forall k | 0 <= k < |d| :: IsKey(d[k].key) && CleanValue(d[k].value)
  }

  ghost predicate Requests(d: seq<Entry>) {
    DistinctKeys(d) && CleanEntries(d)
  }

  // ---------- Reading ----------

  /** What the line assigns to `q`. */
  function Given(line: string, q: string, syntax: Syntax): Option<string> {
    match syntax.read(line)
    case None => None
    case Some(a) => if a.key == q then Some(a.value) else None
  }

  /** The value of `q` when the file is loaded: its last assignment. */
  function LastOf(lines: seq<string>, q: string, syntax: Syntax): Option<string> {
    if lines == [] then None else
      var later := LastOf(lines[1..], q, syntax);
      if later.Some? then later else Given(lines[0], q, syntax)
  }

  function FirstOf(lines: seq<string>, q: string, syntax: Syntax): Option<string> {
    if lines == [] then None else
      var here := Given(lines[0], q, syntax);
      if here.Some? then here else FirstOf(lines[1..], q, syntax)
  }

  function KeyOf(line: string, syntax: Syntax): Option<string> {
    match syntax.read(line)
    case None => None
    case Some(a) => Some(a.key)
  }

  /** How many lines assign `q`. */
  function CountOf(lines: seq<string>, q: string, syntax: Syntax): nat {
    if lines == [] then 0 else (if KeyOf(lines[0], syntax) == Some(q) then 1 else 0) + CountOf(lines[1..], q, syntax)
  }

  /** The contents of the lines that assign nothing: comments, blanks, anything else. */
  function Others(lines: seq<string>, syntax: Syntax): seq<string> {
    if lines == [] then [] else
      (if KeyOf(lines[0], syntax) == None then [Body(lines[0])] else []) + Others(lines[1..], syntax)
  }

  /** `find_duplicate_keys` from the keys seen and the duplicates found so far */
  function DuplicatesFrom(lines: seq<string>, seen: set<string>, found: seq<string>, syntax: Syntax): seq<string>
    decreases |lines|
  {
    if lines == [] then found else
      match KeyOf(lines[0], syntax)
      case None => DuplicatesFrom(lines[1..], seen, found, syntax)
      case Some(key) =>
        DuplicatesFrom(lines[1..], seen + {key}, if key in seen && key !in found then found + [key] else found, syntax)
  }

  function Duplicates(lines: seq<string>, syntax: Syntax): seq<string> {
    DuplicatesFrom(lines, {}, [], syntax)
  }

  // ---------- Rewriting ----------

  /** Where one pass over the lines stands. */
  datatype Scan = Scan(pending: seq<Entry>, seen: set<string>, removed: seq<string>, updated: seq<string>,
    preserved: seq<string>)

  /** The line left in the place of `line` (nothing for a repeated key) and the state after it. */
  function ScanLine(line: string, st: Scan, preserve: bool, syntax: Syntax): (string, Scan) {
    match syntax.read(line)
    case None => (line, st)
    case Some(a) =>
      if a.key in st.seen then
        ("", if a.key in st.removed then st else st.(removed := st.removed + [a.key]))
      else
        match Lookup(st.pending, a.key)
        case None => (line, st.(seen := st.seen + {a.key}))
        case Some(v) =>
          var st1 := st.(seen := st.seen + {a.key}, pending := Without(st.pending, a.key));
          if preserve && a.value != "" then (line, st1.(preserved := st.preserved + [a.key]))
          else (syntax.write(a.prefix, a.key, v, EndsWithNewline(line)), st1.(updated := st.updated + [a.key]))
  }

  function Cons(line: string, rest: seq<string>): seq<string> {
    if line == "" then rest else [line] + rest
  }

  /** The lines kept by the pass, and the state it ends in. */
  function ScanLines(lines: seq<string>, st: Scan, preserve: bool, syntax: Syntax): (seq<string>, Scan)
    decreases |lines|
  {
    if lines == [] then ([], st) else
      var one := ScanLine(lines[0], st, preserve, syntax);
      var rest := ScanLines(lines[1..], one.1, preserve, syntax);
      (Cons(one.0, rest.0), rest.1)
  }

  /** The lines written for the keys no line had. */
  function Appended(pending: seq<Entry>, syntax: Syntax): seq<string> {
    if pending == [] then [] else
      [syntax.write("", pending[0].key, pending[0].value, true)] + Appended(pending[1..], syntax)
  }

  /** A newline is added to a last line without one when something is to follow. */
  function Closed(kept: seq<string>): seq<string> {
    if kept != [] && !EndsWithNewline(kept[|kept| - 1]) then kept[..|kept| - 1] + [kept[|kept| - 1] + "\n"]
    else kept
  }

  function Finish(kept: seq<string>, pending: seq<Entry>, syntax: Syntax): seq<string> {
    if pending == [] then kept else Closed(kept) + Appended(pending, syntax)
  }

  datatype Update = Update(lines: seq<string>, updated: seq<string>, preserved: seq<string>, removed: seq<string>)

  function Start(updates: seq<Entry>): Scan {
    Scan(updates, {}, [], [], [])
  }

  /** The lines `update_env_file` writes, and its report. */
  function Updated(lines: seq<string>, updates: seq<Entry>, preserve: bool, syntax: Syntax): Update {
    var (kept, st) := ScanLines(lines, Start(updates), preserve, syntax);
    Update(Finish(kept, st.pending, syntax), st.updated + KeysOf(st.pending), st.preserved, st.removed)
  }

  // ---------- Files ----------

  /** Text whose only line terminator is `\n`. */
  ghost predicate PlainText(text: string) {
    forall k | 0 <= k < |text| :: IsBoundary(text[k]) ==> text[k] == '\n'
  }

  /** Lines as they come from plain text: only the last may lack its newline. */
  ghost predicate PlainLines(lines: seq<string>) {
    forall k | 0 <= k < |lines| :: PlainLine(lines[k]) && (k + 1 < |lines| ==> EndsWithNewline(lines[k]))
  }

  /** What `_load_env_lines` reads: the env file, or the example file, or nothing. */
  function Source(env: Option<string>, example: Option<string>): string {
    if env.Some? then env.value else if example.Some? then example.value else ""
  }

  /** `_load_env_lines` */
  function LoadLines(env: Option<string>, example: Option<string>): seq<string> {
    SplitKeepEnds(UniversalNewlines(Source(env, example)))
  }

  datatype Report = Report(updated: seq<string>, preserved: seq<string>, removed: seq<string>)

  function NonEmpty(lines: seq<string>): seq<string> {
    if lines == [] then [] else Cons(lines[0], NonEmpty(lines[1..]))
  }

  /** The dictionary holds the last value of every key assigned. */
  ghost predicate Loads(values: map<string, string>, lines: seq<string>, syntax: Syntax) {
    forall q :: if q in values then LastOf(lines, q, syntax) == Some(values[q]) else LastOf(lines, q, syntax) == None
  }

  /** The file at `env_path`; `text` is what is stored there. */
  class EnvPath {
    var text: Option<string>

    /** `_parse_env_values` */
    static method ParseEnvValues(lines: seq<string>, syntax: Syntax) returns (values: map<string, string>)
      ensures Loads(values, lines, syntax)
    {
      values := map[];
      var i := 0;
      while i < |lines|
        invariant 0 <= i <= |lines|
        invariant Loads(values, lines[..i], syntax)
      {
        assert lines[..i + 1] == lines[..i] + [lines[i]];
        LoadsMore(values, lines[..i], lines[i], syntax);
        match syntax.read(lines[i]) {
          case None =>
          case Some(a) => values := values[a.key := a.value];
        }
        i := i + 1;
      }
      assert lines[..|lines|] == lines;
    }

    /** `find_duplicate_keys` */
    method FindDuplicateKeys(syntax: Syntax) returns (duplicates: seq<string>)
      ensures duplicates == if text.None? then [] else Duplicates(LoadLines(text, None), syntax)
    {
      duplicates := [];
      if text.None? {
        return;
      }
      var lines := SplitKeepEnds(UniversalNewlines(text.value));
      var seen: set<string>, duplicateSeen: set<string> := {}, {};
      var i := 0;
      while i < |lines|
        invariant 0 <= i <= |lines|
        invariant forall q :: q in duplicateSeen <==> q in duplicates
        invariant DuplicatesFrom(lines[i..], seen, duplicates, syntax) == Duplicates(lines, syntax)
      {
        assert lines[i..][0] == lines[i] && lines[i..][1..] == lines[i + 1..];
        match syntax.read(lines[i]) {
          case None =>
          case Some(a) =>
            if a.key in seen && a.key !in duplicateSeen {
              duplicates := duplicates + [a.key];
              duplicateSeen := duplicateSeen + {a.key};
            }
            seen := seen + {a.key};
        }
        i := i + 1;
      }
    }

    /** The body of the loop over the lines: what is left in the line's place. */
    static method VisitLine(line: string, st0: Scan, duplicateSeen0: set<string>, preserve: bool, syntax: Syntax)
      returns (left: string, st: Scan, duplicateSeen: set<string>)
      requires forall q :: q in duplicateSeen0 <==> q in st0.removed
      ensures (left, st) == ScanLine(line, st0, preserve, syntax)
      ensures forall q :: q in duplicateSeen <==> q in st.removed
    {
      left, st, duplicateSeen := line, st0, duplicateSeen0;
      match syntax.read(line) {
        case None =>
        case Some(a) =>
          if a.key in st.seen {
            left := "";
            if a.key !in duplicateSeen {
              st := st.(removed := st.removed + [a.key]);
              duplicateSeen := duplicateSeen + {a.key};
            }
            return;
          }
          st := st.(seen := st.seen + {a.key});
          match Lookup(st.pending, a.key) {
            case None =>
            case Some(v) =>
              st := st.(pending := Without(st.pending, a.key));
              if preserve && a.value != "" {
                st := st.(preserved := st.preserved + [a.key]);
              } else {
                left := syntax.write(a.prefix, a.key, v, EndsWithNewline(line));
                st := st.(updated := st.updated + [a.key]);
              }
          }
      }
    }

    /** The pass over the lines. */
    static method Rewrite(lines: seq<string>, updates: seq<Entry>, preserve: bool, syntax: Syntax)
      returns (kept: seq<string>, st: Scan)
      ensures (kept, st) == ScanLines(lines, Start(updates), preserve, syntax)
    {
      var newLines := lines;
      st := Start(updates);
      var duplicateSeen: set<string> := {};
      var i := 0;
      ghost var goal := ScanLines(lines, st, preserve, syntax);
      while i < |newLines|
        invariant 0 <= i <= |newLines| == |lines|
        invariant newLines[i..] == lines[i..]
        invariant forall q :: q in duplicateSeen <==> q in st.removed
        invariant ScanLines(lines[i..], st, preserve, syntax).1 == goal.1
        invariant NonEmpty(newLines[..i]) + ScanLines(lines[i..], st, preserve, syntax).0 == goal.0
      {
        ghost var before, st0 := newLines, st;
        var left;
        left, st, duplicateSeen := VisitLine(newLines[i], st, duplicateSeen, preserve, syntax);
        newLines := newLines[i := left];
        ScanFront(lines, i, st0, preserve, syntax);
        NonEmptySnoc(before, newLines, i, left, ScanLines(lines[i + 1..], st, preserve, syntax).0);
        i := i + 1;
      }
      assert newLines[..i] == newLines && lines[i..] == [];
      kept := NonEmpty(newLines);
      assert kept + [] == kept;
    }

    /** The lines for what is left. */
    static method Append(kept: seq<string>, st: Scan, syntax: Syntax) returns (newLines: seq<string>, updated: seq<string>)
      ensures newLines == Finish(kept, st.pending, syntax)
      ensures updated == st.updated + KeysOf(st.pending)
    {
      newLines := if st.pending != [] then Closed(kept) else kept;
      updated := st.updated;
      var i := 0;
      ghost var first := newLines;
      while i < |st.pending|
        invariant 0 <= i <= |st.pending|
        invariant newLines + Appended(st.pending[i..], syntax) == first + Appended(st.pending, syntax)
        invariant updated + KeysOf(st.pending[i..]) == st.updated + KeysOf(st.pending)
      {
        var entry := st.pending[i];
        assert st.pending[i..][0] == entry && st.pending[i..][1..] == st.pending[i + 1..];
        var line := syntax.write("", entry.key, entry.value, true);
        ConcatAssoc(newLines, [line], Appended(st.pending[i + 1..], syntax));
        ConcatAssoc(updated, [entry.key], KeysOf(st.pending[i + 1..]));
        newLines := newLines + [line];
        updated := updated + [entry.key];
        i := i + 1;
      }
      assert newLines + [] == newLines && updated + [] == updated;
    }

    /** `update_env_file`; `example` is what the example file holds. */
    method UpdateEnvFile(updates: seq<Entry>, example: Option<string>, preserve: bool, syntax: Syntax)
      returns (report: Report)
      modifies this
      ensures var u := Updated(LoadLines(old(text), example), updates, preserve, syntax);
        text == Some(Concat(u.lines)) && report == Report(u.updated, u.preserved, u.removed)
    {
      var kept, st := Rewrite(LoadLines(text, example), updates, preserve, syntax);
      var newLines, updated := Append(kept, st, syntax);
      text := Some(Concat(newLines));
      report := Report(updated, st.preserved, st.removed);
    }
  }

  lemma ScanFront(lines: seq<string>, i: nat, st: Scan, preserve: bool, syntax: Syntax)
    requires i < |lines|
    ensures var one := ScanLine(lines[i], st, preserve, syntax);
      var rest := ScanLines(lines[i + 1..], one.1, preserve, syntax);
      ScanLines(lines[i..], st, preserve, syntax) == (Cons(one.0, rest.0), rest.1)
  {
    assert lines[i..][0] == lines[i] && lines[i..][1..] == lines[i + 1..];
  }

  lemma LoadsMore(values: map<string, string>, lines: seq<string>, line: string, syntax: Syntax)
    requires Loads(values, lines, syntax)
    ensures match syntax.read(line)
      case None => Loads(values, lines + [line], syntax)
      case Some(a) => Loads(values[a.key := a.value], lines + [line], syntax)
  {
    forall q
      ensures LastOf(lines + [line], q, syntax) ==
              if Given(line, q, syntax).Some? then Given(line, q, syntax) else LastOf(lines, q, syntax)
    {
      LastOfAppend(lines, [line], q, syntax);
      assert [line][1..] == [];
    }
  }

  lemma {:induction false} NonEmptyAppend(a: seq<string>, b: seq<string>)
    ensures NonEmpty(a + b) == NonEmpty(a) + NonEmpty(b)
  {
    if a == [] {
      AfterPrefix([], b);
    } else {
      assert (a + b)[0] == a[0] && (a + b)[1..] == a[1..] + b;
      NonEmptyAppend(a[1..], b);
      if a[0] != "" {
        ConcatAssoc([a[0]], NonEmpty(a[1..]), NonEmpty(b));
      }
    }
  }

  lemma NonEmptySnoc(before: seq<string>, now: seq<string>, i: nat, line: string, rest: seq<string>)
    requires i < |before| && now == before[i := line]
    ensures NonEmpty(now[..i + 1]) + rest == NonEmpty(before[..i]) + Cons(line, rest)
  {
    assert now[..i + 1] == before[..i] + [line];
    NonEmptyAppend(before[..i], [line]);
    assert [line][1..] == [];
    if line == "" {
      assert NonEmpty(before[..i]) + [] == NonEmpty(before[..i]);
    } else {
      ConcatAssoc(NonEmpty(before[..i]), [line], rest);
    }
  }

  lemma {:induction false} LastOfAppend(a: seq<string>, b: seq<string>, q: string, syntax: Syntax)
    ensures LastOf(a + b, q, syntax) == if LastOf(b, q, syntax).Some? then LastOf(b, q, syntax) else LastOf(a, q, syntax)
  {
    if a == [] {
      AfterPrefix([], b);
    } else {
      assert (a + b)[0] == a[0] && (a + b)[1..] == a[1..] + b;
      LastOfAppend(a[1..], b, q, syntax);
    }
  }
}
