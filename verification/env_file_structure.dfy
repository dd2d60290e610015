/** What one rewrite of an env file leaves of its lines, what it reports, and that doing it again changes
    nothing (scripts/env_writer.py). */
module EnvFileStructure {
  import opened Text
  import opened EnvLine
  import opened EnvFile
  import opened EnvFileMeaning

  // ---------- Duplicates ----------

  /** The keys `find_duplicate_keys` reports are those assigned more than once. */
  lemma {:induction false} DuplicatesFromExactly(lines: seq<string>, seen: set<string>, found: seq<string>, q: string,
      syntax: Syntax)
    ensures q in DuplicatesFrom(lines, seen, found, syntax) <==>
            q in found || CountOf(lines, q, syntax) + (if q in seen then 1 else 0) >= 2
    decreases |lines|
  {
    if lines != [] {
      match KeyOf(lines[0], syntax)
      case None => DuplicatesFromExactly(lines[1..], seen, found, q, syntax);
      case Some(key) =>
        var more := if key in seen && key !in found then found + [key] else found;
        DuplicatesFromExactly(lines[1..], seen + {key}, more, q, syntax);
    }
  }

  lemma DuplicatesExactly(lines: seq<string>, q: string, syntax: Syntax)
    ensures q in Duplicates(lines, syntax) <==> CountOf(lines, q, syntax) >= 2
  {
    DuplicatesFromExactly(lines, {}, [], q, syntax);
  }

  /** An update removes exactly the duplicates of the file as it was, in the order `find_duplicate_keys`
      lists them. */
  lemma {:induction false} RemovedAreDuplicates(lines: seq<string>, st: Scan, preserve: bool, syntax: Syntax)
    ensures ScanLines(lines, st, preserve, syntax).1.removed == DuplicatesFrom(lines, st.seen, st.removed, syntax)
    decreases |lines|
  {
    if lines != [] {
      var s1 := ScanLine(lines[0], st, preserve, syntax).1;
      RemovedAreDuplicates(lines[1..], s1, preserve, syntax);
      if syntax.read(lines[0]).Some? {
        assert syntax.read(lines[0]).value.key in st.seen ==>
            st.seen + {syntax.read(lines[0]).value.key} == st.seen;
      }
    }
  }

  lemma CountCons(line: string, rest: seq<string>, q: string, syntax: Syntax)
    requires syntax.read("") == None
    ensures CountOf(Cons(line, rest), q, syntax) ==
            CountOf(rest, q, syntax) + if KeyOf(line, syntax) == Some(q) then 1 else 0
  {
    if line != "" {
      assert ([line] + rest)[0] == line && ([line] + rest)[1..] == rest;
    }
  }

  lemma {:induction false} ScanCount(lines: seq<string>, st: Scan, q: string, preserve: bool, syntax: Syntax)
    requires Lawful(syntax) && PlainLines(lines) && Writable(st.pending, syntax)
    ensures CountOf(ScanLines(lines, st, preserve, syntax).0, q, syntax) <= if q in st.seen then 0 else 1
    ensures FirstOf(lines, q, syntax).Some? ==>
              q in st.seen || Lookup(ScanLines(lines, st, preserve, syntax).1.pending, q) == None
    decreases |lines|
  {
    if lines != [] {
      var (left, s1) := ScanLine(lines[0], st, preserve, syntax);
      PlainIsEnded(lines[0]);
      LineCanBeRewritten(lines[0], st, syntax);
      ScanLineKey(lines[0], st, q, preserve, syntax);
      ScanLineShape(lines[0], st, preserve, syntax);
      ScanCount(lines[1..], s1, q, preserve, syntax);
      CountCons(left, ScanLines(lines[1..], s1, preserve, syntax).0, q, syntax);
      PlainAreEnded(lines);
      ScanKey(lines, st, q, preserve, syntax);
    }
  }

  lemma {:induction false} CountAppend(a: seq<string>, b: seq<string>, q: string, syntax: Syntax)
    ensures CountOf(a + b, q, syntax) == CountOf(a, q, syntax) + CountOf(b, q, syntax)
  {
    if a == [] {
      AfterPrefix([], b);
    } else {
      assert (a + b)[0] == a[0] && (a + b)[1..] == a[1..] + b;
      CountAppend(a[1..], b, q, syntax);
    }
  }

  /** Whether a key is assigned, counted and read. */
  lemma {:induction false} CountedIffAssigned(lines: seq<string>, q: string, syntax: Syntax)
    ensures CountOf(lines, q, syntax) == 0 <==> FirstOf(lines, q, syntax) == None
    ensures FirstOf(lines, q, syntax) == None <==> LastOf(lines, q, syntax) == None
  {
    if lines != [] {
      CountedIffAssigned(lines[1..], q, syntax);
    }
  }

  lemma {:induction false} AppendedCount(pending: seq<Entry>, q: string, syntax: Syntax)
    requires Lawful(syntax) && Writable(pending, syntax) && DistinctKeys(pending)
    ensures CountOf(Appended(pending, syntax), q, syntax) == if Lookup(pending, q).Some? then 1 else 0
  {
    if pending != [] {
      assert ReadsBack(syntax, "", pending[0].key, pending[0].value, true);
      AppendedCount(pending[1..], q, syntax);
      LookupNone(pending[1..], q);
      var first := syntax.write("", pending[0].key, pending[0].value, true);
      CountCons(first, Appended(pending[1..], syntax), q, syntax);
    }
  }

  lemma ClosedCount(kept: seq<string>, q: string, syntax: Syntax)
    requires Lawful(syntax) && PlainLines(kept)
    ensures CountOf(Closed(kept), q, syntax) == CountOf(kept, q, syntax)
    ensures Others(Closed(kept), syntax) == Others(kept, syntax)
  {
    if kept != [] && !EndsWithNewline(kept[|kept| - 1]) {
      var body, last := kept[..|kept| - 1], kept[|kept| - 1];
      assert body + [last] == kept && OneLine(last);
      assert syntax.read(last + "\n") == syntax.read(last);
      BodyOf(last);
      LastAlone(last, q, syntax);
      LastAlone(last + "\n", q, syntax);
      CountAppend(body, [last], q, syntax);
      CountAppend(body, [last + "\n"], q, syntax);
      OthersAppend(body, [last], syntax);
      OthersAppend(body, [last + "\n"], syntax);
    }
  }

  lemma LastAlone(line: string, q: string, syntax: Syntax)
    ensures CountOf([line], q, syntax) == if KeyOf(line, syntax) == Some(q) then 1 else 0
    ensures Others([line], syntax) == if KeyOf(line, syntax) == None then [Body(line)] else []
  {
    assert [line][1..] == [];
  }

  lemma {:induction false} OthersAppend(a: seq<string>, b: seq<string>, syntax: Syntax)
    ensures Others(a + b, syntax) == Others(a, syntax) + Others(b, syntax)
  {
    if a == [] {
      AfterPrefix([], b);
    } else {
      assert (a + b)[0] == a[0] && (a + b)[1..] == a[1..] + b;
      OthersAppend(a[1..], b, syntax);
      ConcatAssoc(if KeyOf(a[0], syntax) == None then [Body(a[0])] else [], Others(a[1..], syntax), Others(b, syntax));
    }
  }

  /** No key is assigned twice in the lines an update writes. */
  lemma UpdatedCount(lines: seq<string>, updates: seq<Entry>, q: string, preserve: bool, syntax: Syntax)
    requires Lawful(syntax) && PlainLines(lines) && Writable(updates, syntax) && DistinctKeys(updates)
    ensures CountOf(Updated(lines, updates, preserve, syntax).lines, q, syntax) <= 1
  {
    var (kept, st) := ScanLines(lines, Start(updates), preserve, syntax);
    ScanCount(lines, Start(updates), q, preserve, syntax);
    if st.pending != [] {
      ScanShape(lines, Start(updates), preserve, syntax);
      ScanDistinct(lines, Start(updates), preserve, syntax);
      PlainAreEnded(lines);
      ScanKey(lines, Start(updates), q, preserve, syntax);
      CountedIffAssigned(kept, q, syntax);
      AppendedCount(st.pending, q, syntax);
      ClosedCount(kept, q, syntax);
      CountAppend(Closed(kept), Appended(st.pending, syntax), q, syntax);
    }
  }

  /** An update reports as removed exactly what `find_duplicate_keys` found, and afterwards it finds none. */
  lemma NoDuplicatesLeft(text: string, updates: seq<Entry>, preserve: bool, eval: string -> Literal)
    requires PlainText(text) && Requests(updates)
    ensures Updated(SplitKeepEnds(text), updates, preserve, EnvSyntax(eval)).removed ==
            Duplicates(SplitKeepEnds(text), EnvSyntax(eval))
    ensures Duplicates(SplitKeepEnds(UpdatedText(text, updates, preserve, eval)), EnvSyntax(eval)) == []
  {
    var lines := SplitKeepEnds(text);
    RemovedAreDuplicates(lines, Start(updates), preserve, EnvSyntax(eval));
    SplitIsPlain(text);
    EnvIsLawful(eval);
    RequestsAreWritable(updates, eval);
    NoDuplicatesInLines(lines, updates, preserve, EnvSyntax(eval));
  }

  lemma NoDuplicatesInLines(lines: seq<string>, updates: seq<Entry>, preserve: bool, syntax: Syntax)
    requires Lawful(syntax) && PlainLines(lines) && Writable(updates, syntax) && DistinctKeys(updates)
    ensures var u := Updated(lines, updates, preserve, syntax).lines;
      Duplicates(SplitKeepEnds(Concat(u)), syntax) == []
  {
    var u := Updated(lines, updates, preserve, syntax).lines;
    UpdatedMeaning(lines, updates, "", preserve, syntax);
    SplitOfConcat(u);
    var d := Duplicates(u, syntax);
    if d != [] {
      DuplicatesExactly(u, d[0], syntax);
      UpdatedCount(lines, updates, d[0], preserve, syntax);
    }
  }

  // ---------- The other lines ----------

  lemma OthersCons(line: string, rest: seq<string>, syntax: Syntax)
    requires line != ""
    ensures Others(Cons(line, rest), syntax) ==
            (if KeyOf(line, syntax) == None then [Body(line)] else []) + Others(rest, syntax)
  {
    assert ([line] + rest)[0] == line && ([line] + rest)[1..] == rest;
  }

  lemma {:induction false} ScanOthers(lines: seq<string>, st: Scan, preserve: bool, syntax: Syntax)
    requires Lawful(syntax) && PlainLines(lines) && Writable(st.pending, syntax)
    ensures Others(ScanLines(lines, st, preserve, syntax).0, syntax) == Others(lines, syntax)
    decreases |lines|
  {
    if lines != [] {
      var (left, s1) := ScanLine(lines[0], st, preserve, syntax);
      PlainIsEnded(lines[0]);
      LineCanBeRewritten(lines[0], st, syntax);
      ScanLineShape(lines[0], st, preserve, syntax);
      ScanOthers(lines[1..], s1, preserve, syntax);
      var rest := ScanLines(lines[1..], s1, preserve, syntax).0;
      if left == "" {
        AfterPrefix([], Others(rest, syntax));
      } else {
        OthersCons(left, rest, syntax);
      }
    }
  }

  lemma {:induction false} AppendedOthers(pending: seq<Entry>, syntax: Syntax)
    requires Lawful(syntax) && Writable(pending, syntax)
    ensures Others(Appended(pending, syntax), syntax) == []
  {
    if pending != [] {
      assert ReadsBack(syntax, "", pending[0].key, pending[0].value, true);
      AppendedOthers(pending[1..], syntax);
      OthersCons(syntax.write("", pending[0].key, pending[0].value, true), Appended(pending[1..], syntax), syntax);
    }
  }

  lemma UpdatedOthers(lines: seq<string>, updates: seq<Entry>, preserve: bool, syntax: Syntax)
    requires Lawful(syntax) && PlainLines(lines) && Writable(updates, syntax)
    ensures Others(Updated(lines, updates, preserve, syntax).lines, syntax) == Others(lines, syntax)
  {
    var (kept, st) := ScanLines(lines, Start(updates), preserve, syntax);
    ScanOthers(lines, Start(updates), preserve, syntax);
    if st.pending != [] {
      ScanShape(lines, Start(updates), preserve, syntax);
      ClosedCount(kept, "", syntax);
      AppendedOthers(st.pending, syntax);
      OthersAppend(Closed(kept), Appended(st.pending, syntax), syntax);
      AfterSuffix(Others(kept, syntax));
    }
  }

  /** The lines that assign nothing stay, in their order. */
  lemma OtherLinesStay(text: string, updates: seq<Entry>, preserve: bool, eval: string -> Literal)
    requires PlainText(text) && Requests(updates)
    ensures Others(SplitKeepEnds(UpdatedText(text, updates, preserve, eval)), EnvSyntax(eval)) ==
            Others(SplitKeepEnds(text), EnvSyntax(eval))
  {
    SplitIsPlain(text);
    EnvIsLawful(eval);
    RequestsAreWritable(updates, eval);
    UpdatedOthers(SplitKeepEnds(text), updates, preserve, EnvSyntax(eval));
    UpdatedMeaning(SplitKeepEnds(text), updates, "", preserve, EnvSyntax(eval));
    SplitOfConcat(Updated(SplitKeepEnds(text), updates, preserve, EnvSyntax(eval)).lines);
  }

  // ---------- The report ----------

  /** How often `q` is in a list. */
  function Times(list: seq<string>, q: string): nat {
    if list == [] then 0 else Times(list[..|list| - 1], q) + if list[|list| - 1] == q then 1 else 0
  }

  lemma TimesSnoc(list: seq<string>, x: string, q: string)
    ensures Times(list + [x], q) == Times(list, q) + if x == q then 1 else 0
  {
    assert (list + [x])[..|list|] == list;
  }

  lemma {:induction false} TimesAppend(a: seq<string>, b: seq<string>, q: string)
    ensures Times(a + b, q) == Times(a, q) + Times(b, q)
  {
    if b == [] {
      AfterSuffix(a);
    } else {
      var front, last := b[..|b| - 1], b[|b| - 1];
      TimesAppend(a, front, q);
      ConcatAssoc(a, front, [last]);
      assert front + [last] == b;
      TimesSnoc(a + front, last, q);
    }
  }

  function Once(there: bool): nat {
    if there then 1 else 0
  }

  lemma {:induction false} KeysOnce(d: seq<Entry>, q: string)
    requires DistinctKeys(d)
    ensures Times(KeysOf(d), q) == Once(Lookup(d, q).Some?)
  {
    if d != [] {
      KeysOnce(d[1..], q);
      LookupNone(d[1..], q);
      TimesAppend([d[0].key], KeysOf(d[1..]), q);
      TimesSnoc([], d[0].key, q);
      AfterPrefix([], [d[0].key]);
    }
  }

  function Handled(st: Scan, q: string): nat {
    Once(Lookup(st.pending, q).Some?) + Times(st.updated, q) + Times(st.preserved, q)
  }

  lemma Moves(d: seq<Entry>, key: string, q: string, list: seq<string>)
    requires Lookup(d, key).Some?
    ensures Once(Lookup(Without(d, key), q).Some?) + Times(list + [key], q) == Once(Lookup(d, q).Some?) + Times(list, q)
  {
    LookupWithout(d, key, q);
    TimesSnoc(list, key, q);
  }

  lemma ScanLineHandles(line: string, st: Scan, q: string, preserve: bool, syntax: Syntax)
    ensures Handled(ScanLine(line, st, preserve, syntax).1, q) == Handled(st, q)
  {
    if syntax.read(line).Some? {
      var key := syntax.read(line).value.key;
      if key !in st.seen && Lookup(st.pending, key).Some? {
        Moves(st.pending, key, q, st.updated);
        Moves(st.pending, key, q, st.preserved);
      }
    }
  }

  lemma {:induction false} ScanHandles(lines: seq<string>, st: Scan, q: string, preserve: bool, syntax: Syntax)
    ensures Handled(ScanLines(lines, st, preserve, syntax).1, q) == Handled(st, q)
    decreases |lines|
  {
    if lines != [] {
      ScanLineHandles(lines[0], st, q, preserve, syntax);
      ScanHandles(lines[1..], ScanLine(lines[0], st, preserve, syntax).1, q, preserve, syntax);
    }
  }

  /** Updated and preserved keys partition the requested ones: each is reported once, no other is. */
  lemma ReportPartition(lines: seq<string>, updates: seq<Entry>, q: string, preserve: bool, syntax: Syntax)
    requires DistinctKeys(updates)
    ensures var u := Updated(lines, updates, preserve, syntax);
      Times(u.updated, q) + Times(u.preserved, q) == Once(Lookup(updates, q).Some?)
  {
    var st := ScanLines(lines, Start(updates), preserve, syntax).1;
    ScanHandles(lines, Start(updates), q, preserve, syntax);
    ScanDistinct(lines, Start(updates), preserve, syntax);
    KeysOnce(st.pending, q);
    TimesAppend(st.updated, KeysOf(st.pending), q);
  }

  lemma {:induction false} ScanPreserves(lines: seq<string>, st: Scan, q: string, preserve: bool, syntax: Syntax)
    ensures q in ScanLines(lines, st, preserve, syntax).1.preserved <==>
      q in st.preserved ||
      (preserve && q !in st.seen && Lookup(st.pending, q).Some? &&
       FirstOf(lines, q, syntax).Some? && FirstOf(lines, q, syntax).value != "")
    decreases |lines|
  {
    if lines != [] {
      var s1 := ScanLine(lines[0], st, preserve, syntax).1;
      ScanPreserves(lines[1..], s1, q, preserve, syntax);
      if syntax.read(lines[0]).Some? {
        LookupWithout(st.pending, syntax.read(lines[0]).value.key, q);
      }
    }
  }

  /** A requested key is preserved exactly when that was asked for and its first value is not empty. */
  lemma PreservedExactly(lines: seq<string>, updates: seq<Entry>, q: string, preserve: bool, syntax: Syntax)
    ensures q in Updated(lines, updates, preserve, syntax).preserved <==>
      preserve && Lookup(updates, q).Some? &&
      FirstOf(lines, q, syntax).Some? && FirstOf(lines, q, syntax).value != ""
  {
    ScanPreserves(lines, Start(updates), q, preserve, syntax);
  }

  // ---------- Doing it again ----------

  /** A line that the same update would leave as it is. */
  ghost predicate Settled(line: string, updates: seq<Entry>, preserve: bool, syntax: Syntax) {
    match syntax.read(line)
    case None => true
    case Some(a) =>
      match Lookup(updates, a.key)
      case None => true
      case Some(v) => (preserve && a.value != "") || line == syntax.write(a.prefix, a.key, v, EndsWithNewline(line))
  }

  ghost predicate AllSettled(lines: seq<string>, updates: seq<Entry>, preserve: bool, syntax: Syntax) {
    forall k | 0 <= k < |lines| :: Settled(lines[k], updates, preserve, syntax)
  }

  /** What is pending for the keys not seen is what was asked for. */
  ghost predicate InStep(st: Scan, updates: seq<Entry>) {
    forall q | q !in st.seen :: Lookup(st.pending, q) == Lookup(updates, q)
  }

  lemma StaysInStep(line: string, st: Scan, updates: seq<Entry>, preserve: bool, syntax: Syntax)
    requires InStep(st, updates)
    ensures InStep(ScanLine(line, st, preserve, syntax).1, updates)
  {
    if syntax.read(line).Some? {
      var key := syntax.read(line).value.key;
      forall q
        ensures Lookup(Without(st.pending, key), q) == if q == key then None else Lookup(st.pending, q)
      {
        LookupWithout(st.pending, key, q);
      }
    }
  }

  lemma ScanLineSettles(line: string, st: Scan, updates: seq<Entry>, preserve: bool, syntax: Syntax)
    requires CanRewrite(line, st, syntax) && InStep(st, updates)
    ensures Settled(ScanLine(line, st, preserve, syntax).0, updates, preserve, syntax)
  {
  }

  lemma {:induction false} ScanSettles(lines: seq<string>, st: Scan, updates: seq<Entry>, preserve: bool,
      syntax: Syntax)
    requires Lawful(syntax) && PlainLines(lines) && Writable(st.pending, syntax) && InStep(st, updates)
    ensures AllSettled(ScanLines(lines, st, preserve, syntax).0, updates, preserve, syntax)
    decreases |lines|
  {
    if lines != [] {
      var s1 := ScanLine(lines[0], st, preserve, syntax).1;
      PlainIsEnded(lines[0]);
      LineCanBeRewritten(lines[0], st, syntax);
      ScanLineShape(lines[0], st, preserve, syntax);
      ScanLineSettles(lines[0], st, updates, preserve, syntax);
      StaysInStep(lines[0], st, updates, preserve, syntax);
      ScanSettles(lines[1..], s1, updates, preserve, syntax);
    }
  }

  lemma {:induction false} AppendedSettled(pending: seq<Entry>, updates: seq<Entry>, preserve: bool, syntax: Syntax)
    requires Lawful(syntax) && Writable(pending, syntax)
    requires forall k | 0 <= k < |pending| :: Lookup(updates, pending[k].key) == Some(pending[k].value)
    ensures AllSettled(Appended(pending, syntax), updates, preserve, syntax)
  {
    if pending != [] {
      assert ReadsBack(syntax, "", pending[0].key, pending[0].value, true);
      AppendedSettled(pending[1..], updates, preserve, syntax);
    }
  }

  lemma NewlineSettled(line: string, updates: seq<Entry>, preserve: bool, syntax: Syntax)
    requires Lawful(syntax) && OneLine(line) && Settled(line, updates, preserve, syntax)
    ensures Settled(line + "\n", updates, preserve, syntax)
  {
    BodyOf(line);
    assert syntax.read(line + "\n") == syntax.read(line);
  }

  lemma ClosedSettled(kept: seq<string>, updates: seq<Entry>, preserve: bool, syntax: Syntax)
    requires Lawful(syntax) && PlainLines(kept) && AllSettled(kept, updates, preserve, syntax)
    ensures AllSettled(Closed(kept), updates, preserve, syntax)
  {
    if kept != [] && !EndsWithNewline(kept[|kept| - 1]) {
      NewlineSettled(kept[|kept| - 1], updates, preserve, syntax);
    }
  }

  lemma {:induction false} LookupOfMember(d: seq<Entry>, k: nat)
    requires DistinctKeys(d) && k < |d|
    ensures Lookup(d, d[k].key) == Some(d[k].value)
  {
    if k > 0 {
      LookupOfMember(d[1..], k - 1);
    }
  }

  lemma PendingWasAsked(lines: seq<string>, updates: seq<Entry>, preserve: bool, syntax: Syntax)
    requires Lawful(syntax) && PlainLines(lines) && Writable(updates, syntax) && DistinctKeys(updates)
    ensures var p := ScanLines(lines, Start(updates), preserve, syntax).1.pending;
      forall k | 0 <= k < |p| :: Lookup(updates, p[k].key) == Some(p[k].value)
  {
    var p := ScanLines(lines, Start(updates), preserve, syntax).1.pending;
    ScanDistinct(lines, Start(updates), preserve, syntax);
    forall k | 0 <= k < |p|
      ensures Lookup(updates, p[k].key) == Some(p[k].value)
    {
      LookupOfMember(p, k);
      PlainAreEnded(lines);
      ScanKey(lines, Start(updates), p[k].key, preserve, syntax);
    }
  }

  lemma SettledAppend(a: seq<string>, b: seq<string>, updates: seq<Entry>, preserve: bool, syntax: Syntax)
    requires AllSettled(a, updates, preserve, syntax) && AllSettled(b, updates, preserve, syntax)
    ensures AllSettled(a + b, updates, preserve, syntax)
  {
  }

  lemma UpdatedSettled(lines: seq<string>, updates: seq<Entry>, preserve: bool, syntax: Syntax)
    requires Lawful(syntax) && PlainLines(lines) && Writable(updates, syntax) && DistinctKeys(updates)
    ensures AllSettled(Updated(lines, updates, preserve, syntax).lines, updates, preserve, syntax)
  {
    var (kept, st) := ScanLines(lines, Start(updates), preserve, syntax);
    ScanSettles(lines, Start(updates), updates, preserve, syntax);
    ScanShape(lines, Start(updates), preserve, syntax);
    PendingWasAsked(lines, updates, preserve, syntax);
    ClosedSettled(kept, updates, preserve, syntax);
    AppendedSettled(st.pending, updates, preserve, syntax);
    SettledAppend(Closed(kept), Appended(st.pending, syntax), updates, preserve, syntax);
  }

  /** No line assigns a key already seen, nor a key twice. */
  ghost predicate Unrepeated(lines: seq<string>, seen: set<string>, syntax: Syntax) {
    forall q :: CountOf(lines, q, syntax) + Once(q in seen) <= 1
  }

  lemma SettledLineStays(line: string, st: Scan, updates: seq<Entry>, preserve: bool, syntax: Syntax)
    requires Settled(line, updates, preserve, syntax) && InStep(st, updates)
    requires KeyOf(line, syntax).Some? ==> KeyOf(line, syntax).value !in st.seen
    ensures var (left, s1) := ScanLine(line, st, preserve, syntax);
      left == line &&
      s1.seen == st.seen + if KeyOf(line, syntax).Some? then {KeyOf(line, syntax).value} else {}
  {
  }

  lemma UnrepeatedRest(lines: seq<string>, seen: set<string>, syntax: Syntax)
    requires lines != [] && Unrepeated(lines, seen, syntax)
    ensures KeyOf(lines[0], syntax).Some? ==> KeyOf(lines[0], syntax).value !in seen
    ensures Unrepeated(lines[1..], seen + if KeyOf(lines[0], syntax).Some? then {KeyOf(lines[0], syntax).value} else {},
                       syntax)
  {
    if KeyOf(lines[0], syntax).Some? {
      var key := KeyOf(lines[0], syntax).value;
      assert CountOf(lines, key, syntax) + Once(key in seen) <= 1;
    }
    forall q
      ensures CountOf(lines[1..], q, syntax) + Once(KeyOf(lines[0], syntax) == Some(q)) == CountOf(lines, q, syntax)
    {
    }
  }

  lemma {:induction false} SettledLinesStay(lines: seq<string>, st: Scan, updates: seq<Entry>, preserve: bool,
      syntax: Syntax)
    requires PlainLines(lines) && AllSettled(lines, updates, preserve, syntax)
    requires InStep(st, updates) && Unrepeated(lines, st.seen, syntax)
    ensures ScanLines(lines, st, preserve, syntax).0 == lines
    decreases |lines|
  {
    if lines != [] {
      UnrepeatedRest(lines, st.seen, syntax);
      SettledLineStays(lines[0], st, updates, preserve, syntax);
      StaysInStep(lines[0], st, updates, preserve, syntax);
      SettledLinesStay(lines[1..], ScanLine(lines[0], st, preserve, syntax).1, updates, preserve, syntax);
      assert [lines[0]] + lines[1..] == lines;
    }
  }

  /** Where every requested key is assigned somewhere, nothing is left to append. */
  lemma NothingPending(lines: seq<string>, updates: seq<Entry>, preserve: bool, syntax: Syntax)
    requires Lawful(syntax) && PlainLines(lines) && Writable(updates, syntax)
    requires forall q | Lookup(updates, q).Some? :: FirstOf(lines, q, syntax).Some?
    ensures ScanLines(lines, Start(updates), preserve, syntax).1.pending == []
  {
    var p := ScanLines(lines, Start(updates), preserve, syntax).1.pending;
    if p != [] {
      PlainAreEnded(lines);
      ScanKey(lines, Start(updates), p[0].key, preserve, syntax);
    }
  }

  lemma UpdatedTwice(lines: seq<string>, updates: seq<Entry>, preserve: bool, syntax: Syntax)
    requires Lawful(syntax) && PlainLines(lines) && Writable(updates, syntax) && DistinctKeys(updates)
    ensures var u := Updated(lines, updates, preserve, syntax).lines;
      Updated(u, updates, preserve, syntax).lines == u
  {
    var u := Updated(lines, updates, preserve, syntax).lines;
    UpdatedSettled(lines, updates, preserve, syntax);
    UpdatedMeaning(lines, updates, "", preserve, syntax);
    forall q
      ensures CountOf(u, q, syntax) <= 1 && (Lookup(updates, q).Some? ==> FirstOf(u, q, syntax).Some?)
    {
      UpdatedCount(lines, updates, q, preserve, syntax);
      UpdatedMeaning(lines, updates, q, preserve, syntax);
      CountedIffAssigned(u, q, syntax);
    }
    SettledLinesStay(u, Start(updates), updates, preserve, syntax);
    NothingPending(u, updates, preserve, syntax);
  }

  /** Repeating an update leaves the file's text as it is. */
  lemma UpdateIsIdempotent(text: string, updates: seq<Entry>, preserve: bool, eval: string -> Literal)
    requires PlainText(text) && Requests(updates)
    ensures var once := UpdatedText(text, updates, preserve, eval);
      UpdatedText(once, updates, preserve, eval) == once
  {
    SplitIsPlain(text);
    EnvIsLawful(eval);
    RequestsAreWritable(updates, eval);
    UpdatedMeaning(SplitKeepEnds(text), updates, "", preserve, EnvSyntax(eval));
    SplitOfConcat(Updated(SplitKeepEnds(text), updates, preserve, EnvSyntax(eval)).lines);
    UpdatedTwice(SplitKeepEnds(text), updates, preserve, EnvSyntax(eval));
  }

  // ---------- A value that does not fit on a line ----------

  lemma {:induction false} EscapeEachAppend(a: string, b: string)
    ensures EscapeEach(a + b) == EscapeEach(a) + EscapeEach(b)
  {
    if a == "" {
      AfterPrefix("", b);
    } else {
      assert (a + b)[0] == a[0] && (a + b)[1..] == a[1..] + b;
      EscapeEachAppend(a[1..], b);
      ConcatAssoc(EscapeChar(a[0]), EscapeEach(a[1..]), EscapeEach(b));
    }
  }

  lemma {:induction false} SafeEscapes(a: string)
    requires AllSafe(a)
    ensures EscapeEach(a) == a && OneLine(a)
  {
    if a != "" {
      assert IsSafe(a[0]);
      assert AllSafe(a[1..]) by {
        assert forall k | 0 <= k < |a[1..]| :: a[1..][k] == a[k + 1];
      }
      SafeEscapes(a[1..]);
      assert [a[0]] + a[1..] == a;
    }
  }

  /** A value with a newline in it is written as two lines: the first loads as an opening quote and the part
      before the newline. */
  lemma NewlineBreaksValue(key: string, a: string, b: string, eval: string -> Literal)
    requires IsKey(key) && AllSafe(a) && AllSafe(b)
    ensures var text := UpdatedText("", [Entry(key, a + "\n" + b)], false, eval);
      && SplitKeepEnds(text) == [key + ("=" + ("\"" + a)) + "\n", b + "\"" + "\n"]
      && LastOf(SplitKeepEnds(text), key, EnvSyntax(eval)) == Some("\"" + a)
  {
    BrokenText(key, a, b, eval);
    BrokenFirst(key, a, eval);
    BrokenSecond(b, key, eval);
    var first, second := key + ("=" + ("\"" + a)) + "\n", b + "\"" + "\n";
    LastOfTwo(first, second, key, EnvSyntax(eval));
  }

  lemma BrokenFirst(key: string, a: string, eval: string -> Literal)
    requires IsKey(key) && AllSafe(a)
    ensures Given(key + ("=" + ("\"" + a)) + "\n", key, EnvSyntax(eval)) == Some("\"" + a)
    ensures OneLine(key + ("=" + ("\"" + a)))
  {
    SafeEscapes(a);
    OneLineConcat("\"", a);
    HalfQuoted(a, eval);
    BareAssignment(key, "\"" + a, "\"" + a, eval);
  }

  lemma BareParts(key: string, tail: string)
    requires IsKey(key) && OneLine(tail)
    ensures var line := key + ("=" + tail);
      OneLine(line) && line != "" && MatchBody(line) == Some(Assignment("", key)) && AfterEquals(line) == tail
  {
    KeyHasNoEquals(key);
    OneLineConcat("=", tail);
    OneLineConcat(key, "=" + tail);
    EmptyPrefix(key);
    ReadsLine("", key, tail);
    AfterPrefix("", key + ("=" + tail));
    AfterEqualsOf(key, tail);
  }

  lemma BareRead(line: string, key: string, v: string, eval: string -> Literal)
    requires OneLine(line) && line != "" && MatchBody(line) == Some(Assignment("", key)) && ValueOf(line, eval) == v
    ensures ReadLine(line + "\n", eval) == Some(Assigned("", key, v))
  {
    BodyOf(line);
    ReadsBare(line + "\n", line, true, Assignment("", key), v, eval);
  }

  lemma GivenOf(line: string, key: string, v: string, eval: string -> Literal)
    requires ReadLine(line, eval) == Some(Assigned("", key, v))
    ensures Given(line, key, EnvSyntax(eval)) == Some(v)
  {
  }

  lemma BareAssignment(key: string, tail: string, v: string, eval: string -> Literal)
    requires IsKey(key) && OneLine(tail) && DecodeValue(Strip(tail), eval) == v
    ensures Given(key + ("=" + tail) + "\n", key, EnvSyntax(eval)) == Some(v)
    ensures OneLine(key + ("=" + tail))
  {
    BareParts(key, tail);
    BareRead(key + ("=" + tail), key, v, eval);
    GivenOf(key + ("=" + tail) + "\n", key, v, eval);
  }

  lemma HalfQuoted(a: string, eval: string -> Literal)
    requires AllSafe(a)
    ensures DecodeValue(Strip("\"" + a), eval) == "\"" + a
  {
    var v := "\"" + a;
    if a != "" {
      SafeIsPlain(a[|a| - 1]);
      assert v[|v| - 1] == a[|a| - 1];
    }
    StripSolid(v);
  }

  lemma BrokenSecond(b: string, key: string, eval: string -> Literal)
    requires AllSafe(b)
    ensures Given(b + "\"" + "\n", key, EnvSyntax(eval)) == None
    ensures OneLine(b + "\"")
  {
    var line := b + "\"";
    SafeEscapes(b);
    assert '=' !in line by {
      assert forall k | 0 <= k < |b| :: IsSafe(b[k]);
    }
    BodyOf(line);
    if MatchBody(line).Some? {
      MatchHasEquals(line);
    }
    NewlineKeepsLine(line, eval);
  }

  lemma BrokenEscapes(a: string, b: string)
    requires AllSafe(a) && AllSafe(b)
    ensures EscapeEach(a + "\n" + b) == a + "\n" + b
  {
    EscapeEachAppend(a + "\n", b);
    EscapeEachAppend(a, "\n");
    SafeEscapes(a);
    SafeEscapes(b);
    assert "\n"[1..] == "";
    assert EscapeEach("\n") == "\n";
  }

  lemma Quoted(q: string, a: string, n: string, b: string)
    ensures q + (a + n + b) + q == (q + a) + n + (b + q)
  {
  }

  lemma BrokenFormat(a: string, b: string)
    requires AllSafe(a) && AllSafe(b)
    ensures FormatValue(a + "\n" + b) == ("\"" + a) + "\n" + (b + "\"")
  {
    var v := a + "\n" + b;
    assert v[|a|] == '\n' && !IsSafe('\n');
    EscapeIsEach(v);
    BrokenEscapes(a, b);
    Quoted("\"", a, "\n", b);
  }

  /** An update of an empty file with one request writes one assignment. */
  lemma OneRequest(entry: Entry, eval: string -> Literal)
    ensures UpdatedText("", [entry], false, eval) == RenderLine("", entry.key, entry.value, true)
  {
    var line := EnvSyntax(eval).write("", entry.key, entry.value, true);
    assert [entry][1..] == [];
    assert Appended([entry], EnvSyntax(eval)) == [line];
    AfterPrefix([], [line]);
    ConcatOne(line);
  }

  lemma TwoPieces(key: string, a: string, b: string, v: string)
    requires FormatValue(v) == a + "\n" + b
    ensures RenderLine("", key, v, true) == (key + ("=" + a) + "\n") + (b + "\n")
  {
    var f := FormatValue(v);
    AfterPrefix("", key + ("=" + f));
    assert ("=" + f) == ("=" + a) + ("\n" + b);
    assert key + ("=" + f) == key + ("=" + a) + ("\n" + b);
    assert ("\n" + b) + "\n" == "\n" + (b + "\n");
  }

  lemma BrokenText(key: string, a: string, b: string, eval: string -> Literal)
    requires IsKey(key) && AllSafe(a) && AllSafe(b)
    ensures SplitKeepEnds(UpdatedText("", [Entry(key, a + "\n" + b)], false, eval)) ==
            [key + ("=" + ("\"" + a)) + "\n", b + "\"" + "\n"]
  {
    OneRequest(Entry(key, a + "\n" + b), eval);
    BrokenFormat(a, b);
    TwoPieces(key, "\"" + a, b + "\"", a + "\n" + b);
    BrokenFirst(key, a, eval);
    BrokenSecond(b, key, eval);
    TwoLines(key + ("=" + ("\"" + a)), b + "\"");
  }
}
