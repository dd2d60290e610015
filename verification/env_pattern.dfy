/** The pattern of an assignment line, as an exact form of text (scripts/env_writer.py). */
module EnvPattern {
  import opened Text
  import opened EnvLine

  predicate IsLetter(c: char) {
    'A' <= c <= 'Z' || 'a' <= c <= 'z' || c == '_'
  }

  /** Letters, digits and underscores, the first no digit. */
  predicate IsName(key: string) {
    key != "" && IsLetter(key[0]) && forall k | 0 <= k < |key| :: IsLetter(key[k]) || '0' <= key[k] <= '9'
  }

  /** Space, or space, `export` and space. */
  ghost predicate IsPrefixText(p: string) {
    AllSpace(p) || exists a: string, b: string | AllSpace(a) && AllSpace(b) && b != "" :: p == a + ("export" + b)
  }

  /** A prefix, a name, perhaps space, an equals sign and anything. */
  ghost predicate IsAssignment(body: string, prefix: string, key: string) {
    IsPrefixText(prefix) && IsName(key) &&
    exists gap: string, tail: string | AllSpace(gap) :: body == prefix + (key + (gap + ("=" + tail)))
  }

  lemma NameIsKey(key: string)
    ensures IsName(key) <==> IsKey(key)
  {
  }

  lemma ExportText(b: string, rest: string)
    requires AllSpace(b) && b != "" && (rest == "" || !IsSpace(rest[0]))
    ensures ExportRun("export" + b) == 6 + |b| && ExportRun("export" + (b + rest)) == 6 + |b|
  {
    AfterPrefix("export", b);
    AfterPrefix("export", b + rest);
    SpaceRunIs(b, |b|);
    SpaceRunAppend(b, rest);
    Exports("export" + b);
    Exports("export" + (b + rest));
  }

  lemma Exports(s: string)
    requires |s| >= 6 && s[..6] == "export"
    ensures StartsWithExport(s)
  {
    var e := s[..6];
    assert e[0] == 'e' && e[1] == 'x' && e[2] == 'p' && e[3] == 'o' && e[4] == 'r' && e[5] == 't';
    assert forall k | 0 <= k < 6 :: s[k] == e[k];
  }

  lemma SpelledExport(s: string)
    requires StartsWithExport(s)
    ensures s[..6] == "export"
  {
  }

  /** The prefix run of a text is of that form. */
  lemma RunIsPrefix(s: string)
    ensures IsPrefixText(s[..PrefixRun(s)]) && AllSpace(s[..SpaceRun(s)])
  {
    var ws := SpaceRun(s);
    var e := ExportRun(s[ws..]);
    SpacesFirst(s, s[..ws]);
    if e > 0 {
      ExportIsLong(s[ws..]);
      ExportFound(s, ws, s[ws..], e - 6, s[..PrefixRun(s)]);
    } else {
      SpaceIsPrefix(s[..PrefixRun(s)]);
    }
  }

  lemma ExportIsLong(s: string)
    requires ExportRun(s) > 0
    ensures ExportRun(s) > 6
  {
  }

  lemma SpaceIsPrefix(p: string)
    requires AllSpace(p)
    ensures IsPrefixText(p)
  {
  }

  lemma ExportFound(s: string, ws: nat, rest: string, n: nat, p: string)
    requires ws <= |s| && AllSpace(s[..ws]) && rest == s[ws..] && ExportRun(rest) == 6 + n > 6
    requires p == s[..ws + (6 + n)]
    ensures IsPrefixText(p)
  {
    var b := rest[6..][..n];
    SpacesFirst(rest[6..], b);
    SpelledExport(rest);
    ExportPieces(s, ws, n, s[..ws], b);
  }

  lemma SpacesFirst(s: string, t: string)
    requires t == s[..SpaceRun(s)]
    ensures AllSpace(t)
  {
  }

  lemma ExportPieces(s: string, ws: nat, n: nat, a: string, b: string)
    requires ws + 6 + n <= |s| && a == s[..ws] && s[ws..][..6] == "export" && b == s[ws..][6..][..n]
    requires AllSpace(a) && AllSpace(b) && n > 0
    ensures IsPrefixText(s[..ws + (6 + n)])
  {
    assert s[..ws + (6 + n)] == a + ("export" + b);
  }

  lemma KeyIsNamed(s: string, key: string)
    requires KeyThenEquals(s) == Some(key)
    ensures IsName(key)
    ensures exists gap: string, tail: string | AllSpace(gap) :: s == key + (gap + ("=" + tail))
  {
    NameIsKey(key);
    var n := KeyRun(s);
    var m := n + SpaceRun(s[n..]);
    KeyPieces(s, n, m, s[n..m], s[m + 1..]);
  }

  lemma KeyPieces(s: string, n: nat, m: nat, gap: string, tail: string)
    requires n <= m < |s| && s[m] == '=' && gap == s[n..m] && tail == s[m + 1..] && m == n + SpaceRun(s[n..])
    ensures AllSpace(gap) && s == s[..n] + (gap + ("=" + tail))
  {
    assert forall k | 0 <= k < |gap| :: gap[k] == s[n..][k];
  }

  lemma ReadsSpacedKey(key: string, gap: string, tail: string)
    requires IsKey(key) && AllSpace(gap)
    ensures KeyThenEquals(key + (gap + ("=" + tail))) == Some(key)
  {
    var rest := gap + ("=" + tail);
    var s := key + rest;
    assert rest[0] == if gap == "" then '=' else gap[0];
    SpaceIsNotWord(rest[0]);
    WordRunOf(key, rest);
    assert s[0] == key[0];
    AfterPrefix(key, rest);
    SpacesThen(gap, "=" + tail);
    assert rest[|gap|] == '=';
    assert s[|key| + |gap|] == rest[|gap|];
  }

  lemma SpaceIsNotWord(c: char)
    requires IsSpace(c) || c == '='
    ensures !IsWord(c)
  {
  }

  lemma SpacesThen(gap: string, rest: string)
    requires AllSpace(gap) && rest != "" && !IsSpace(rest[0])
    ensures SpaceRun(gap + rest) == |gap|
  {
    var s := gap + rest;
    assert forall k | 0 <= k < |gap| :: s[k] == gap[k];
    assert s[|gap|] == rest[0];
    SpaceRunIs(s, |gap|);
  }

  /** With `export` in the prefix, or none and no name that could be it, the prefix is read. */
  lemma ReadsPrefixText(prefix: string, rest: string)
    requires IsPrefixText(prefix) && rest != "" && !IsSpace(rest[0])
    requires AllSpace(prefix) ==> ExportRun(rest) == 0
    ensures PrefixRun(prefix + rest) == |prefix|
  {
    if AllSpace(prefix) {
      SpacesThen(prefix, rest);
      AfterPrefix(prefix, rest);
    } else {
      var a: string, b: string :| AllSpace(a) && AllSpace(b) && b != "" && prefix == a + ("export" + b);
      var more := "export" + (b + rest);
      assert more[0] == 'e' && prefix + rest == a + more;
      SpacesThen(a, more);
      AfterPrefix(a, more);
      ExportText(b, rest);
    }
  }

  lemma ExportIsKey(key: string, gap: string, tail: string)
    requires IsKey(key) && AllSpace(gap) && !(key == "export" && gap != "")
    ensures ExportRun(key + (gap + ("=" + tail))) == 0
  {
    var rest := gap + ("=" + tail);
    var s := key + rest;
    assert rest[0] == if gap == "" then '=' else gap[0];
    assert s[|key|] == rest[0];
    assert forall k | 0 <= k < |key| :: s[k] == key[k] && IsWord(key[k]);
    if StartsWithExport(s) {
      ExportWithin(s, key, rest);
    }
  }

  lemma ExportWithin(s: string, key: string, rest: string)
    requires IsKey(key) && rest != "" && !IsWord(rest[0]) && s == key + rest && StartsWithExport(s)
    requires key == "export" ==> rest[0] == '='
    ensures ExportRun(s) == 0
  {
    assert s[|key|] == rest[0];
    assert forall k | 0 <= k < |key| :: s[k] == key[k];
    assert |key| >= 6;
    if |key| == 6 {
      SpelledExport(s);
      assert key == s[..6];
      assert s[6] == '=';
    } else {
      assert s[6] == key[6] && IsWord(key[6]);
      WordIsNotSpace(s[6]);
    }
    assert s[6..][0] == s[6];
  }

  /** Reading `export` as a key, where it stands before space and an equals sign. */
  lemma ReadsExportAsKey(prefix: string, gap: string, tail: string, body: string)
    requires AllSpace(prefix) && AllSpace(gap) && gap != "" && body == prefix + ("export" + (gap + ("=" + tail)))
    ensures MatchBody(body) == Some(Assignment(prefix, "export"))
  {
    var eq := "=" + tail;
    ExportAfter(prefix, gap, eq, body);
    NothingBeforeEquals(body, prefix, gap, eq);
    AfterPrefix(prefix, "export" + (gap + eq));
    ExportIsName();
    ReadsSpacedKey("export", gap, tail);
    FallsBack(body, |prefix| + (6 + |gap|), |prefix|, "export");
  }

  lemma ExportIsName()
    ensures IsKey("export")
  {
  }

  lemma ExportAfter(prefix: string, gap: string, eq: string, body: string)
    requires AllSpace(prefix) && AllSpace(gap) && gap != "" && eq != "" && eq[0] == '='
    requires body == prefix + ("export" + (gap + eq))
    ensures SpaceRun(body) == |prefix| && PrefixRun(body) == |prefix| + (6 + |gap|)
  {
    var rest := "export" + (gap + eq);
    assert rest[0] == 'e';
    SpacesThen(prefix, rest);
    AfterPrefix(prefix, rest);
    ExportText(gap, eq);
  }

  lemma FallsBack(body: string, n: nat, m: nat, key: string)
    requires n == PrefixRun(body) && m == SpaceRun(body)
    requires KeyThenEquals(body[n..]) == None && KeyThenEquals(body[m..]) == Some(key)
    ensures MatchBody(body) == Some(Assignment(body[..m], key))
  {
  }

  lemma NothingBeforeEquals(body: string, prefix: string, gap: string, eq: string)
    requires body == prefix + ("export" + (gap + eq)) && eq != "" && eq[0] == '='
    ensures KeyThenEquals(body[|prefix| + (6 + |gap|)..]) == None
  {
    assert body[|prefix| + (6 + |gap|)..] == eq;
  }

  /** A line reads as this prefix and this key exactly when it has the pattern's form with them. */
  lemma LinePattern(body: string, prefix: string, key: string)
    ensures MatchBody(body) == Some(Assignment(prefix, key)) <==> IsAssignment(body, prefix, key)
  {
    if IsAssignment(body, prefix, key) {
      FormIsRead(body, prefix, key);
    }
    if MatchBody(body) == Some(Assignment(prefix, key)) {
      ReadHasForm(body, prefix, key);
    }
  }

  lemma FormIsRead(body: string, prefix: string, key: string)
    requires IsAssignment(body, prefix, key)
    ensures MatchBody(body) == Some(Assignment(prefix, key))
  {
    var gap: string, tail: string :| AllSpace(gap) && body == prefix + (key + (gap + ("=" + tail)));
    var rest := key + (gap + ("=" + tail));
    NameIsKey(key);
    if AllSpace(prefix) && key == "export" && gap != "" {
      ReadsExportAsKey(prefix, gap, tail, body);
    } else {
      if AllSpace(prefix) {
        ExportIsKey(key, gap, tail);
      }
      assert rest[0] == key[0];
      WordIsNotSpace(key[0]);
      ReadsPrefixText(prefix, rest);
      AfterPrefix(prefix, rest);
      ReadsSpacedKey(key, gap, tail);
    }
  }

  lemma ReadHasForm(body: string, prefix: string, key: string)
    requires MatchBody(body) == Some(Assignment(prefix, key))
    ensures IsAssignment(body, prefix, key)
  {
    RunIsPrefix(body);
    var n := |prefix|;
    assert prefix == body[..n] && KeyThenEquals(body[n..]) == Some(key);
    KeyIsNamed(body[n..], key);
    var gap: string, tail: string :| AllSpace(gap) && body[n..] == key + (gap + ("=" + tail));
    assert body == prefix + (key + (gap + ("=" + tail)));
  }
}
