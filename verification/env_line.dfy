/** One line of an env file: recognising an assignment, and writing and reading its value
    (scripts/env_writer.py). */
module EnvLine {
  import opened Text

  // ---------- Values ----------

  predicate IsSafe(c: char) {
    'A' <= c <= 'Z' || 'a' <= c <= 'z' || '+' <= c <= ':' || c == '@' || c == '_'
  }

  predicate AllSafe(v: string) {
    forall k | 0 <= k < |v| :: IsSafe(v[k])
  }

  lemma SafeIsPlain(c: char)
    requires IsSafe(c)
    ensures !IsSpace(c) && c != '\'' && c != '"'
  {
  }

  /** `s.replace(c, with)` for one character */
  function Replace(s: string, c: char, with: string): string {
    if s == "" then "" else (if s[0] == c then with else [s[0]]) + Replace(s[1..], c, with)
  }

  function Escape(v: string): string {
    Replace(Replace(v, '\\', "\\\\"), '"', "\\\"")
  }

  /** `format_env_value` */
  function FormatValue(v: string): string {
    if v == "" then "" else if AllSafe(v) then v else "\"" + Escape(v) + "\""
  }

  /** A body of a double-quoted literal whose only escapes are a backslash and a double quote. */
  predicate IsPlainLiteral(body: string) {
    body == "" ||
    (if body[0] == '\\' then |body| >= 2 && body[1] in ['\\', '"'] && IsPlainLiteral(body[2..])
     else body[0] !in ['"', '\n', '\r', '\0'] && IsPlainLiteral(body[1..]))
  }

  /** The string such a literal denotes. */
  function Unescape(body: string): string
    requires IsPlainLiteral(body)
  {
    if body == "" then ""
    else if body[0] == '\\' then [body[1]] + Unescape(body[2..])
    else [body[0]] + Unescape(body[1..])
  }

  /** What `ast.literal_eval` makes of other quoted text. */
  datatype Literal = IsText(text: string) | NotText | Fails

  predicate IsQuoted(s: string) {
    |s| >= 2 && s[0] == s[|s| - 1] && (s[0] == '\'' || s[0] == '"')
  }

  /** The value of quoted text; `eval` is `ast.literal_eval` outside the plain literals. */
  function DecodeQuoted(s: string, eval: string -> Literal): string
    requires IsQuoted(s)
  {
    var body := s[1..|s| - 1];
    if s[0] == '"' && IsPlainLiteral(body) then Unescape(body)
    else
      match eval(s)
      case IsText(text) => text
      case NotText => s
      case Fails => body
  }

  /** `_decode_env_value` */
  function DecodeValue(raw: string, eval: string -> Literal): string {
    var s := Strip(raw);
    if IsQuoted(s) then DecodeQuoted(s, eval) else s
  }

  /** A value that fits on a line and that a literal can hold. */
  ghost predicate CleanValue(v: string) {
    OneLine(v) && '\0' !in v
  }

  function EscapeChar(c: char): string {
    if c == '\\' then "\\\\" else if c == '"' then "\\\"" else [c]
  }

  function EscapeEach(v: string): string {
    if v == "" then "" else EscapeChar(v[0]) + EscapeEach(v[1..])
  }

  lemma {:induction false} ReplaceAppend(a: string, b: string, c: char, with: string)
    ensures Replace(a + b, c, with) == Replace(a, c, with) + Replace(b, c, with)
  {
    if a == "" {
      AfterPrefix("", b);
    } else {
      assert (a + b)[0] == a[0] && (a + b)[1..] == a[1..] + b;
      ReplaceAppend(a[1..], b, c, with);
      ConcatAssoc(if a[0] == c then with else [a[0]], Replace(a[1..], c, with), Replace(b, c, with));
    }
  }

  /** Replacing first the backslashes and then the quotes escapes each character once. */
  lemma {:induction false} EscapeIsEach(v: string)
    ensures Escape(v) == EscapeEach(v)
  {
    if v != "" {
      var first := if v[0] == '\\' then "\\\\" else [v[0]];
      ReplaceAppend(first, Replace(v[1..], '\\', "\\\\"), '"', "\\\"");
      EscapeIsEach(v[1..]);
      EscapedFirst(v[0]);
    }
  }

  lemma ReplaceOne(d: char, c: char, with: string)
    ensures Replace([d], c, with) == if d == c then with else [d]
  {
    assert Replace([d][1..], c, with) == "";
  }

  lemma EscapedFirst(c: char)
    ensures Replace(if c == '\\' then "\\\\" else [c], '"', "\\\"") == EscapeChar(c)
  {
    ReplaceOne(c, '"', "\\\"");
    ReplaceAppend("\\", "\\", '"', "\\\"");
    ReplaceOne('\\', '"', "\\\"");
    assert "\\" + "\\" == "\\\\";
  }

  lemma UnescapeFirst(c: char, rest: string)
    requires c !in ['\n', '\r', '\0'] && IsPlainLiteral(rest)
    ensures IsPlainLiteral(EscapeChar(c) + rest) && Unescape(EscapeChar(c) + rest) == [c] + Unescape(rest)
  {
    var s := EscapeChar(c) + rest;
    if c == '\\' || c == '"' {
      assert s[0] == '\\' && s[1] == c && s[2..] == rest;
    } else {
      assert s[0] == c && s[1..] == rest;
    }
  }

  lemma {:induction false} UnescapeEscaped(v: string)
    requires CleanValue(v)
    ensures IsPlainLiteral(EscapeEach(v)) && Unescape(EscapeEach(v)) == v
  {
    if v != "" {
      assert !IsBoundary(v[0]) && v[0] in v;
      assert OneLine(v[1..]) && '\0' !in v[1..];
      UnescapeEscaped(v[1..]);
      UnescapeFirst(v[0], EscapeEach(v[1..]));
      assert [v[0]] + v[1..] == v;
    }
  }

  lemma StripSolid(s: string)
    requires SolidEnds(s)
    ensures Strip(s) == s
  {
  }

  lemma StripRightNewline(s: string)
    ensures StripRight(s + "\n") == StripRight(s)
  {
    var t := s + "\n";
    assert t[|t| - 1] == '\n' && IsSpace('\n');
    assert t[..|t| - 1] == s;
  }

  lemma StripNewline(s: string)
    ensures Strip(s + "\n") == Strip(s)
  {
    StripRightNewline(s);
  }

  lemma SafeEnds(v: string)
    requires v != "" && AllSafe(v)
    ensures SolidEnds(v) && !IsQuoted(v)
  {
    SafeIsPlain(v[0]);
    SafeIsPlain(v[|v| - 1]);
  }

  lemma QuotedParts(body: string)
    ensures var s := "\"" + body + "\"";
      SolidEnds(s) && IsQuoted(s) && s[0] == '"' && s[1..|s| - 1] == body
  {
  }

  /** How a value is written: an empty one as nothing, one of letters, digits and `_ . / : @ , + -` alone as it is,
      and any other between double quotes with each backslash and double quote escaped. */
  lemma FormatMeaning(v: string)
    ensures v == "" ==> FormatValue(v) == ""
    ensures v != "" && (forall k | 0 <= k < |v| :: IsUnquoted(v[k])) ==> FormatValue(v) == v
    ensures (exists k | 0 <= k < |v| :: !IsUnquoted(v[k])) ==> FormatValue(v) == "\"" + EscapeEach(v) + "\""
  {
    forall k | 0 <= k < |v|
      ensures IsSafe(v[k]) <==> IsUnquoted(v[k])
    {
      SafeMeaning(v[k]);
    }
    EscapeIsEach(v);
  }

  predicate IsUnquoted(c: char) {
    'A' <= c <= 'Z' || 'a' <= c <= 'z' || '0' <= c <= '9' || c in {'_', '.', '/', ':', '@', ',', '+', '-'}
  }

  lemma SafeMeaning(c: char)
    ensures IsSafe(c) <==> IsUnquoted(c)
  {
  }

  /** Reading a written value gives it back: `_decode_env_value` inverts `format_env_value`. */
  lemma ValueRoundTrip(v: string, eval: string -> Literal)
    requires CleanValue(v)
    ensures DecodeValue(Strip(FormatValue(v)), eval) == v
  {
    if v != "" {
      if AllSafe(v) {
        SafeEnds(v);
        StripSolid(v);
      } else {
        EscapeIsEach(v);
        UnescapeEscaped(v);
        QuotedParts(Escape(v));
        StripSolid("\"" + Escape(v) + "\"");
      }
    }
  }

  lemma {:induction false} EscapedOneLine(v: string)
    requires OneLine(v)
    ensures OneLine(EscapeEach(v))
  {
    if v != "" {
      assert OneLine(v[1..]) && !IsBoundary(v[0]);
      EscapedOneLine(v[1..]);
    }
  }

  lemma FormattedOneLine(v: string)
    requires OneLine(v)
    ensures OneLine(FormatValue(v))
  {
    EscapeIsEach(v);
    EscapedOneLine(v);
  }

  // ---------- Assignments ----------

  predicate IsKeyStart(c: char) {
    'A' <= c <= 'Z' || 'a' <= c <= 'z' || c == '_'
  }

  predicate IsWord(c: char) {
    IsKeyStart(c) || '0' <= c <= '9'
  }

  function SpaceRun(s: string): (n: nat)
    ensures n <= |s|
    ensures forall k | 0 <= k < n :: IsSpace(s[k])
    ensures n < |s| ==> !IsSpace(s[n])
  {
    if s == "" || !IsSpace(s[0]) then 0 else 1 + SpaceRun(s[1..])
  }

  function WordRun(s: string): (n: nat)
    ensures n <= |s|
    ensures forall k | 0 <= k < n :: IsWord(s[k])
    ensures n < |s| ==> !IsWord(s[n])
  {
    if s == "" || !IsWord(s[0]) then 0 else 1 + WordRun(s[1..])
  }

  /** Matches `[A-Za-z_][A-Za-z0-9_]*` at the start. */
  function KeyRun(s: string): (n: nat)
    ensures n <= |s|
  {
    if s == "" || !IsKeyStart(s[0]) then 0 else WordRun(s)
  }

  predicate IsKey(s: string) {
    s != "" && IsKeyStart(s[0]) && forall k | 0 <= k < |s| :: IsWord(s[k])
  }

  /** Matches `(?P<key>[A-Za-z_][A-Za-z0-9_]*)\s*=`; the key. */
  function KeyThenEquals(s: string): (r: Option<string>)
    ensures r.Some? ==> IsKey(r.value) && |r.value| <= |s| && r.value == s[..|r.value|]
  {
    var n := KeyRun(s);
    if n == 0 then None else
      var m := n + SpaceRun(s[n..]);
      if m < |s| && s[m] == '=' then Some(s[..n]) else None
  }

  predicate StartsWithExport(s: string) {
    |s| >= 6 && s[0] == 'e' && s[1] == 'x' && s[2] == 'p' && s[3] == 'o' && s[4] == 'r' && s[5] == 't'
  }

  /** The length of a match of `export\s+` at the start, or nothing. */
  function ExportRun(s: string): (n: nat)
    ensures n <= |s|
  {
    if !StartsWithExport(s) || SpaceRun(s[6..]) == 0 then 0 else 6 + SpaceRun(s[6..])
  }

  /** The length of a match of `\s*(?:export\s+)?` at the start. */
  function PrefixRun(s: string): (n: nat)
    ensures SpaceRun(s) <= n <= |s|
  {
    SpaceRun(s) + ExportRun(s[SpaceRun(s)..])
  }

  datatype Assignment = Assignment(prefix: string, key: string)

  /** A line without its newline. */
  function Body(line: string): string {
    if EndsWithNewline(line) then line[..|line| - 1] else line
  }

  /** Matches the body of a line against
      `^(?P<prefix>\s*(?:export\s+)?)?(?P<key>[A-Za-z_][A-Za-z0-9_]*)\s*=.*$`. A greedy matcher tries
      `export` as part of the prefix first and as a key after that. */
  function MatchBody(body: string): Option<Assignment> {
    match KeyThenEquals(body[PrefixRun(body)..])
    case Some(key) => Some(Assignment(body[..PrefixRun(body)], key))
    case None =>
      match KeyThenEquals(body[SpaceRun(body)..])
      case Some(key) => Some(Assignment(body[..SpaceRun(body)], key))
      case None => None
  }

  function MatchAssignment(line: string): Option<Assignment> {
    MatchBody(Body(line))
  }

  /** `line.split("=", maxsplit=1)[1]`, or nothing without an equals sign */
  function AfterEquals(line: string): string {
    if line == "" then "" else if line[0] == '=' then line[1..] else AfterEquals(line[1..])
  }

  /** The value an assignment line gives its key. */
  function ValueOf(line: string, eval: string -> Literal): string {
    DecodeValue(Strip(AfterEquals(line)), eval)
  }

  /** The assignment `update_env_file` writes, without its line ending */
  function Rendered(prefix: string, key: string, v: string): string {
    prefix + (key + ("=" + FormatValue(v)))
  }

  /** The line it writes */
  function RenderLine(prefix: string, key: string, v: string, newline: bool): string {
    if newline then Rendered(prefix, key, v) + "\n" else Rendered(prefix, key, v)
  }

  // ---------- Reading back a written line ----------

  lemma SpaceRunIs(s: string, n: nat)
    requires n <= |s| && (forall k | 0 <= k < n :: IsSpace(s[k])) && (n < |s| ==> !IsSpace(s[n]))
    ensures SpaceRun(s) == n
  {
  }

  /** Longer text starts with the same spaces, unless the spaces were all there was. */
  lemma SpaceRunAppend(a: string, b: string)
    requires SpaceRun(a) < |a| || b == "" || !IsSpace(b[0])
    ensures SpaceRun(a + b) == SpaceRun(a)
  {
    var s, n := a + b, SpaceRun(a);
    assert forall k | 0 <= k < n :: s[k] == a[k];
    assert n < |a| ==> s[n] == a[n];
    assert n == |a| && b != "" ==> s[n] == b[0];
    SpaceRunIs(s, n);
  }

  lemma SpaceRunTake(s: string, n: nat)
    requires SpaceRun(s) <= n <= |s|
    ensures SpaceRun(s[..n]) == SpaceRun(s)
  {
    SpaceRunIs(s[..n], SpaceRun(s));
  }

  lemma ExportRunAppend(a: string, b: string)
    requires ExportRun(a) == |a| > 0 && (b == "" || !IsSpace(b[0]))
    ensures ExportRun(a + b) == |a|
  {
    var s := a + b;
    assert forall k | 0 <= k < |a| :: s[k] == a[k];
    SpaceRunAppend(a[6..], b);
    assert s[6..] == a[6..] + b;
  }

  lemma ExportRunTake(s: string)
    ensures ExportRun(s[..ExportRun(s)]) == ExportRun(s)
  {
    var n := ExportRun(s);
    if n > 0 {
      var t := s[..n];
      assert forall k | 0 <= k < 6 :: t[k] == s[k];
      SpaceRunTake(s[6..], n - 6);
      assert t[6..] == s[6..][..n - 6];
    }
  }

  lemma WordRunOf(key: string, rest: string)
    requires (forall k | 0 <= k < |key| :: IsWord(key[k])) && (rest == "" || !IsWord(rest[0]))
    ensures WordRun(key + rest) == |key|
  {
    var s := key + rest;
    assert forall k | 0 <= k < |key| :: s[k] == key[k];
    assert rest != "" ==> s[|key|] == rest[0];
  }

  lemma ReadsKey(key: string, tail: string)
    requires IsKey(key)
    ensures KeyThenEquals(key + ("=" + tail)) == Some(key)
  {
    var s := key + ("=" + tail);
    WordRunOf(key, "=" + tail);
    assert s[0] == key[0];
    AfterPrefix(key, "=" + tail);
    assert s[|key|] == '=';
    assert SpaceRun(s[|key|..]) == 0;
    assert s[..|key|] == key;
  }

  /** A prefix the pattern may have taken: spaces, then perhaps `export` and spaces. */
  predicate IsPrefix(p: string) {
    PrefixRun(p) == |p|
  }

  /** A key with an equals sign after it is not taken for `export` and a key. */
  lemma KeyIsNotExport(key: string, tail: string)
    requires IsKey(key)
    ensures ExportRun(key + ("=" + tail)) == 0
  {
    var s := key + ("=" + tail);
    assert s[|key|] == '=';
    assert forall k | 0 <= k < |key| :: s[k] == key[k];
    if StartsWithExport(s) {
      assert |key| >= 6;
      WordIsNotSpace(s[6]);
      assert s[6..][0] == s[6];
    }
  }

  lemma WordIsNotSpace(c: char)
    requires IsWord(c) || c == '='
    ensures !IsSpace(c)
  {
  }

  /** The prefix is read back in front of anything that is not itself part of a prefix. */
  lemma ReadsPrefix(p: string, rest: string)
    requires IsPrefix(p) && rest != "" && !IsSpace(rest[0]) && ExportRun(rest) == 0
    ensures PrefixRun(p + rest) == |p|
  {
    var ws := SpaceRun(p);
    SpaceRunAppend(p, rest);
    assert (p + rest)[ws..] == p[ws..] + rest;
    if ws < |p| {
      ExportRunAppend(p[ws..], rest);
    } else {
      AfterPrefix("", rest);
      assert p[ws..] == "";
    }
  }

  /** A line with any prefix, a key and an equals sign matches with that prefix and key. */
  lemma ReadsLine(prefix: string, key: string, tail: string)
    requires IsPrefix(prefix) && IsKey(key)
    ensures MatchBody(prefix + (key + ("=" + tail))) == Some(Assignment(prefix, key))
  {
    var rest := key + ("=" + tail);
    assert rest[0] == key[0];
    WordIsNotSpace(key[0]);
    KeyIsNotExport(key, tail);
    ReadsPrefix(prefix, rest);
    AfterPrefix(prefix, rest);
    ReadsKey(key, tail);
  }

  lemma SpacesTaken(s: string)
    ensures IsPrefix(s[..SpaceRun(s)])
  {
    var t := s[..SpaceRun(s)];
    SpaceRunTake(s, |t|);
    assert t[|t|..] == "";
  }

  lemma PrefixTaken(s: string)
    ensures IsPrefix(s[..PrefixRun(s)])
  {
    var ws, n := SpaceRun(s), PrefixRun(s);
    var t := s[..n];
    SpaceRunTake(s, n);
    ExportRunTake(s[ws..]);
    assert t[ws..] == s[ws..][..n - ws];
  }

  /** What a match says about the line: the prefix is one the pattern takes, and the key is a name. */
  lemma MatchParts(body: string)
    requires MatchBody(body).Some?
    ensures var m := MatchBody(body).value;
      IsKey(m.key) && IsPrefix(m.prefix) && |m.prefix| <= |body| && m.prefix == body[..|m.prefix|]
  {
    PrefixTaken(body);
    SpacesTaken(body);
  }

  lemma {:induction false} AfterEqualsOf(a: string, tail: string)
    requires '=' !in a
    ensures AfterEquals(a + ("=" + tail)) == tail
  {
    var s := a + ("=" + tail);
    if a == "" {
      assert s[0] == '=' && s[1..] == tail;
    } else {
      assert s[0] == a[0] && s[1..] == a[1..] + ("=" + tail);
      AfterEqualsOf(a[1..], tail);
    }
  }

  lemma PrefixHasNoEquals(p: string)
    requires IsPrefix(p)
    ensures '=' !in p
  {
    var ws := SpaceRun(p);
    ExportHasNoEquals(p[ws..]);
    forall k | 0 <= k < |p|
      ensures p[k] != '='
    {
      assert k >= ws ==> p[ws..][k - ws] == p[k];
    }
  }

  lemma ExportHasNoEquals(s: string)
    requires ExportRun(s) == |s|
    ensures '=' !in s
  {
    forall k | 0 <= k < |s|
      ensures s[k] != '='
    {
      assert k >= 6 ==> s[6..][k - 6] == s[k];
    }
  }

  lemma KeyHasNoEquals(key: string)
    requires IsKey(key)
    ensures '=' !in key && OneLine(key)
  {
    forall k | 0 <= k < |key|
      ensures key[k] != '=' && !IsBoundary(key[k])
    {
      assert IsWord(key[k]);
    }
  }

  lemma RenderedOneLine(prefix: string, key: string, v: string)
    requires IsKey(key) && OneLine(prefix) && OneLine(v)
    ensures OneLine(Rendered(prefix, key, v)) && Rendered(prefix, key, v) != ""
  {
    var f := FormatValue(v);
    FormattedOneLine(v);
    KeyHasNoEquals(key);
    assert OneLine("=" + f);
    assert OneLine(key + ("=" + f));
  }

  /** Adding a newline to a line does not change its body. */
  lemma BodyOf(s: string)
    requires OneLine(s)
    ensures Body(s) == s && Body(s + "\n") == s && !EndsWithNewline(s)
  {
    assert s != "" ==> !IsBoundary(s[|s| - 1]);
    assert (s + "\n")[..|s|] == s;
  }

  /** The written assignment is read back: the prefix it had, the key and the value. */
  lemma ReadsRendered(prefix: string, key: string, v: string, eval: string -> Literal)
    requires IsPrefix(prefix) && IsKey(key) && OneLine(prefix) && CleanValue(v)
    ensures MatchAssignment(Rendered(prefix, key, v)) == Some(Assignment(prefix, key))
    ensures ValueOf(Rendered(prefix, key, v), eval) == v
  {
    RenderedOneLine(prefix, key, v);
    BodyOf(Rendered(prefix, key, v));
    ReadsLine(prefix, key, FormatValue(v));
    PrefixHasNoEquals(prefix);
    KeyHasNoEquals(key);
    ConcatAssoc(prefix, key, "=" + FormatValue(v));
    AfterEqualsOf(prefix + key, FormatValue(v));
    ValueRoundTrip(v, eval);
  }

  /** A newline at the end does not change what a line assigns. */
  lemma NewlineKeepsLine(line: string, eval: string -> Literal)
    requires OneLine(line)
    ensures MatchAssignment(line + "\n") == MatchAssignment(line)
    ensures MatchAssignment(line).Some? ==> ValueOf(line + "\n", eval) == ValueOf(line, eval)
  {
    BodyOf(line);
    if MatchAssignment(line).Some? {
      MatchHasEquals(line);
      AfterEqualsAppend(line, "\n");
      StripNewline(AfterEquals(line));
    }
  }

  lemma MatchHasEquals(body: string)
    requires MatchBody(body).Some?
    ensures '=' in body
  {
    var n := |MatchBody(body).value.prefix|;
    KeyHasEquals(body[n..]);
  }

  lemma KeyHasEquals(s: string)
    requires KeyThenEquals(s).Some?
    ensures '=' in s
  {
  }

  lemma {:induction false} AfterEqualsAppend(line: string, more: string)
    requires '=' in line
    ensures AfterEquals(line + more) == AfterEquals(line) + more
  {
    assert (line + more)[0] == line[0] && (line + more)[1..] == line[1..] + more;
    if line[0] != '=' {
      AfterEqualsAppend(line[1..], more);
    }
  }

  // ---------- The syntax of an assignment ----------

  datatype Assigned = Assigned(prefix: string, key: string, value: string)

  /** A way to read and write assignments: `read` is the pattern and the decoder, `write` the printer,
      and `fits` says which prefixes and keys may stand on a line. */
  datatype Syntax = Syntax(read: string -> Option<Assigned>, write: (string, string, string, bool) -> string,
    fits: (string, string) -> bool)

  predicate PlainLine(line: string) {
    line != "" && OneLine(Body(line))
  }

  /** A line as `splitlines` cuts text without `\r`: at most its last character ends it. */
  predicate EndedLine(line: string) {
    line != "" && OneLine(line[..|line| - 1]) && line[|line| - 1] != '\r'
  }

  lemma PlainIsEnded(line: string)
    requires PlainLine(line)
    ensures EndedLine(line)
  {
    assert !EndsWithNewline(line) ==> line[|line| - 1] == Body(line)[|line| - 1];
  }

  ghost predicate ReadsBack(s: Syntax, p: string, k: string, v: string, newline: bool) {
    var line := s.write(p, k, v, newline);
    s.read(line) == Some(Assigned(p, k, v)) && PlainLine(line) && EndsWithNewline(line) == newline
  }

  /** What is read may be written. */
  ghost predicate ReadsFit(s: Syntax) {
    forall line | EndedLine(line) && s.read(line).Some? ::
      s.fits(s.read(line).value.prefix, s.read(line).value.key)
  }

  /** What is written is read back. */
  ghost predicate WritesReadBack(s: Syntax) {
    forall p, k, v, newline | s.fits(p, k) && CleanValue(v) :: ReadsBack(s, p, k, v, newline)
  }

  /** A line ending is added at the end and does not change what a line says. */
  ghost predicate NewlineIsNeutral(s: Syntax) {
    && (forall line | OneLine(line) :: s.read(line + "\n") == s.read(line))
    && (forall p, k, v :: s.write(p, k, v, true) == s.write(p, k, v, false) + "\n")
  }

  /** What the rewriter needs of a syntax. */
  ghost predicate Lawful(s: Syntax) {
    s.read("") == None && ReadsFit(s) && WritesReadBack(s) && NewlineIsNeutral(s)
  }

  lemma LawsTogether(s: Syntax)
    requires s.read("") == None && ReadsFit(s) && WritesReadBack(s) && NewlineIsNeutral(s)
    ensures Lawful(s)
  {
  }

  function ReadLine(line: string, eval: string -> Literal): Option<Assigned> {
    var m := MatchAssignment(line);
    if m.None? then None else Some(Assigned(m.value.prefix, m.value.key, ValueOf(line, eval)))
  }

  predicate Fits(p: string, key: string) {
    IsPrefix(p) && OneLine(p) && IsKey(key)
  }

  /** The syntax of an env file. */
  function EnvSyntax(eval: string -> Literal): Syntax {
    Syntax(line => ReadLine(line, eval), (p, k, v, newline) => RenderLine(p, k, v, newline), (p, k) => Fits(p, k))
  }

  lemma PartOfLine(body: string, p: string)
    requires OneLine(body) && |p| <= |body| && p == body[..|p|]
    ensures OneLine(p)
  {
  }

  /** A match takes its prefix from the text before the last character. */
  lemma MatchLeavesKey(body: string)
    requires MatchBody(body).Some?
    ensures |MatchBody(body).value.prefix| < |body|
  {
    MatchParts(body);
    var n := |MatchBody(body).value.prefix|;
    assert KeyThenEquals(body[n..]).Some?;
    KeyHasEquals(body[n..]);
  }

  /** No character but the last ends a line. */
  predicate NothingInside(body: string) {
    body != "" ==> OneLine(body[..|body| - 1])
  }

  lemma MatchFits(body: string)
    requires NothingInside(body)
    requires MatchBody(body).Some?
    ensures Fits(MatchBody(body).value.prefix, MatchBody(body).value.key)
  {
    MatchParts(body);
    MatchLeavesKey(body);
    PartOfLine(body[..|body| - 1], MatchBody(body).value.prefix);
  }

  lemma EnvReads(line: string, eval: string -> Literal)
    requires EndedLine(line) && ReadLine(line, eval).Some?
    ensures Fits(ReadLine(line, eval).value.prefix, ReadLine(line, eval).value.key)
  {
    BodyOfEnded(line, Body(line));
    ReadFits(line, Body(line), eval);
  }

  lemma ReadFits(line: string, body: string, eval: string -> Literal)
    requires body == Body(line) && NothingInside(body) && ReadLine(line, eval).Some?
    ensures Fits(ReadLine(line, eval).value.prefix, ReadLine(line, eval).value.key)
  {
    MatchFits(body);
  }

  lemma BodyOfEnded(line: string, body: string)
    requires EndedLine(line) && body == Body(line)
    ensures NothingInside(body)
  {
    if body != "" {
      assert forall k | 0 <= k < |body| - 1 :: body[k] == line[..|line| - 1][k];
    }
  }

  lemma ReadsBare(line: string, bare: string, newline: bool, a: Assignment, v: string, eval: string -> Literal)
    requires OneLine(bare) && bare != "" && line == (if newline then bare + "\n" else bare)
    requires MatchAssignment(bare) == Some(a) && ValueOf(bare, eval) == v
    ensures ReadLine(line, eval) == Some(Assigned(a.prefix, a.key, v))
    ensures PlainLine(line) && EndsWithNewline(line) == newline
  {
    NewlineKeepsLine(bare, eval);
    BodyOf(bare);
  }

  lemma EnvReadsBack(p: string, k: string, v: string, newline: bool, eval: string -> Literal)
    requires Fits(p, k) && CleanValue(v)
    ensures ReadsBack(EnvSyntax(eval), p, k, v, newline)
  {
    ReadsRendered(p, k, v, eval);
    RenderedOneLine(p, k, v);
    ReadsBare(RenderLine(p, k, v, newline), Rendered(p, k, v), newline, Assignment(p, k), v, eval);
  }

  lemma EnvNewline(line: string, eval: string -> Literal)
    requires OneLine(line)
    ensures ReadLine(line + "\n", eval) == ReadLine(line, eval)
  {
    NewlineKeepsLine(line, eval);
  }

  lemma EnvReadsFit(eval: string -> Literal)
    ensures ReadsFit(EnvSyntax(eval))
  {
    forall line | EndedLine(line) && ReadLine(line, eval).Some?
      ensures Fits(ReadLine(line, eval).value.prefix, ReadLine(line, eval).value.key)
    {
      EnvReads(line, eval);
    }
  }

  lemma EnvWritesReadBack(eval: string -> Literal)
    ensures WritesReadBack(EnvSyntax(eval))
  {
    forall p, k, v, newline | Fits(p, k) && CleanValue(v)
      ensures ReadsBack(EnvSyntax(eval), p, k, v, newline)
    {
      EnvReadsBack(p, k, v, newline, eval);
    }
  }

  lemma EnvNewlineIsNeutral(eval: string -> Literal)
    ensures NewlineIsNeutral(EnvSyntax(eval))
  {
    forall line | OneLine(line)
      ensures ReadLine(line + "\n", eval) == ReadLine(line, eval)
    {
      EnvNewline(line, eval);
    }
  }

  lemma EnvReadsNothing(eval: string -> Literal)
    ensures EnvSyntax(eval).read("") == None
  {
    assert Body("") == "";
  }

  /** Reading and writing env assignments obeys the laws, whatever `ast.literal_eval` makes of text outside
      the plain literals. */
  lemma EnvIsLawful(eval: string -> Literal)
    ensures Lawful(EnvSyntax(eval))
  {
    EnvReadsNothing(eval);
    EnvReadsFit(eval);
    EnvWritesReadBack(eval);
    EnvNewlineIsNeutral(eval);
    LawsTogether(EnvSyntax(eval));
  }
}
