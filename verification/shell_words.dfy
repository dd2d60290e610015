/** The words of a shell command, and the text that the rules are tried on (tools/shell_command.py). */
module ShellWords {
  import opened Text

  function WordLength(s: string): (n: nat)
    ensures n <= |s|
    ensures s != "" && !IsSpace(s[0]) ==> n > 0
  {
    if s == "" || IsSpace(s[0]) then 0 else 1 + WordLength(s[1..])
  }

  /** `s.split()` */
  function Words(s: string): seq<string>
    decreases |s|
  {
    if s == "" then []
    else if IsSpace(s[0]) then Words(s[1..])
    else [s[..WordLength(s)]] + Words(s[WordLength(s)..])
  }

  /** `" ".join(words)` */
  function Spaced(words: seq<string>): string {
    if words == [] then "" else if |words| == 1 then words[0] else words[0] + " " + Spaced(words[1..])
  }

  /** The text the rules see: single spaces, and no leading `sudo`. */
  function Target(command: string): string {
    var normalized := Spaced(Words(Strip(command)));
    if StartsWith(normalized, "sudo ") then StripLeft(normalized[5..]) else normalized
  }

  // ---------- What words are ----------

  /** Some characters, none of them space. */
  predicate IsPlainWord(w: string) {
    w != "" && forall k | 0 <= k < |w| :: !IsSpace(w[k])
  }

  predicate ArePlainWords(words: seq<string>) {
    forall k | 0 <= k < |words| :: IsPlainWord(words[k])
  }

  /** The text is these words with space between them, perhaps before and perhaps behind them. */
  ghost predicate HasWords(s: string, words: seq<string>)
    decreases |words|
  {
    if words == [] then AllSpace(s)
    else
      exists before: string, rest: string | AllSpace(before) && IsPlainWord(words[0]) && s == before + (words[0] + rest) ::
        (rest != "" ==> IsSpace(rest[0])) && HasWords(rest, words[1..])
  }

  /** The words the rules see: all of them, but a first `sudo` that others follow. */
  function Seen(words: seq<string>): seq<string> {
    if |words| > 1 && words[0] == "sudo" then words[1..] else words
  }

  lemma {:induction false} WordLengthOf(w: string, rest: string)
    requires (forall k | 0 <= k < |w| :: !IsSpace(w[k])) && (rest == "" || IsSpace(rest[0]))
    ensures WordLength(w + rest) == |w|
  {
    if w == "" {
      AfterPrefix("", rest);
    } else {
      var s := w + rest;
      assert s[0] == w[0] && s[1..] == w[1..] + rest;
      WordLengthOf(w[1..], rest);
    }
  }

  lemma {:induction false} SpaceHasNoWords(s: string)
    requires AllSpace(s)
    ensures Words(s) == []
  {
    if s != "" {
      SpaceHasNoWords(s[1..]);
    }
  }

  lemma {:induction false} SpaceBefore(before: string, s: string)
    requires AllSpace(before)
    ensures Words(before + s) == Words(s)
  {
    if before == "" {
      AfterPrefix("", s);
    } else {
      assert (before + s)[0] == before[0] && (before + s)[1..] == before[1..] + s;
      SpaceBefore(before[1..], s);
    }
  }

  lemma FirstWord(w: string, rest: string)
    requires IsPlainWord(w) && (rest == "" || IsSpace(rest[0]))
    ensures Words(w + rest) == [w] + Words(rest)
  {
    WordLengthOf(w, rest);
    AfterPrefix(w, rest);
    assert (w + rest)[0] == w[0];
  }

  /** A text has one list of words: those it is split into. */
  lemma {:induction false} WordsAreWords(s: string, words: seq<string>)
    requires HasWords(s, words)
    ensures Words(s) == words
    decreases |words|
  {
    if words == [] {
      SpaceHasNoWords(s);
    } else {
      var before: string, rest: string :| AllSpace(before) && IsPlainWord(words[0]) && s == before + (words[0] + rest)
        && (rest != "" ==> IsSpace(rest[0])) && HasWords(rest, words[1..]);
      SpaceBefore(before, words[0] + rest);
      FirstWord(words[0], rest);
      WordsAreWords(rest, words[1..]);
    }
  }

  lemma WordLengthIs(s: string)
    ensures forall k | 0 <= k < WordLength(s) :: !IsSpace(s[k])
    ensures WordLength(s) < |s| ==> IsSpace(s[WordLength(s)])
  {
  }

  lemma {:induction false} SplitHasWords(s: string)
    ensures HasWords(s, Words(s)) && ArePlainWords(Words(s))
    decreases |s|
  {
    if s != "" {
      if IsSpace(s[0]) {
        SplitHasWords(s[1..]);
        MoreSpace([s[0]], s[1..], s, Words(s[1..]));
      } else {
        var n := WordLength(s);
        WordLengthIs(s);
        SplitHasWords(s[n..]);
        AddWord(s[..n], s[n..], s, Words(s[n..]));
      }
    }
  }

  lemma AddWord(w: string, rest: string, s: string, words: seq<string>)
    requires IsPlainWord(w) && (rest == "" || IsSpace(rest[0])) && HasWords(rest, words) && s == w + rest
    ensures HasWords(s, [w] + words)
  {
    var all := [w] + words;
    assert all[1..] == words && all[0] == w;
    AfterPrefix("", w + rest);
    assert AllSpace("") && s == "" + (all[0] + rest);
  }

  lemma MoreSpace(before: string, s: string, all: string, words: seq<string>)
    requires AllSpace(before) && HasWords(s, words) && all == before + s
    ensures HasWords(all, words)
  {
    if words != [] {
      var space: string, rest: string :| AllSpace(space) && IsPlainWord(words[0]) && s == space + (words[0] + rest)
        && (rest != "" ==> IsSpace(rest[0])) && HasWords(rest, words[1..]);
      ConcatAssoc(before, space, words[0] + rest);
      assert AllSpace(before + space);
    }
  }

  // ---------- What the rules see ----------

  lemma {:induction false} StripRightWords(s: string)
    ensures Words(StripRight(s)) == Words(s)
  {
    if s != "" && IsSpace(s[|s| - 1]) {
      StripRightWords(s[..|s| - 1]);
      SpaceBehind(s[..|s| - 1], s[|s| - 1]);
      assert s == s[..|s| - 1] + [s[|s| - 1]];
    }
  }

  lemma {:induction false} SpaceBehind(s: string, c: char)
    requires IsSpace(c)
    ensures Words(s + [c]) == Words(s)
    decreases |s|
  {
    if s == "" {
      AfterPrefix("", [c]);
      SpaceHasNoWords([c]);
    } else if IsSpace(s[0]) {
      assert (s + [c])[1..] == s[1..] + [c];
      SpaceBehind(s[1..], c);
    } else {
      var n := WordLength(s);
      WordLengthIs(s);
      SpaceBehind(s[n..], c);
      SplitAfterWord(s, n, c);
    }
  }

  lemma SplitAfterWord(s: string, n: nat, c: char)
    requires s != "" && !IsSpace(s[0]) && n == WordLength(s) && IsSpace(c)
    ensures Words(s + [c]) == [s[..n]] + Words(s[n..] + [c])
  {
    var w, rest := s[..n], s[n..] + [c];
    WordLengthIs(s);
    assert s + [c] == w + rest;
    FirstWord(w, rest);
  }

  lemma {:induction false} StripLeftWords(s: string)
    ensures Words(StripLeft(s)) == Words(s)
  {
    if s != "" && IsSpace(s[0]) {
      StripLeftWords(s[1..]);
    }
  }

  lemma StrippedWords(s: string)
    ensures Words(Strip(s)) == Words(s)
  {
    StripRightWords(s);
    StripLeftWords(StripRight(s));
  }

  lemma SpacedFirst(words: seq<string>)
    requires |words| > 1
    ensures Spaced(words) == words[0] + (" " + Spaced(words[1..]))
  {
    ConcatAssoc(words[0], " ", Spaced(words[1..]));
  }

  /** Words joined by single spaces start with `sudo ` exactly when `sudo` is the first and others follow. */
  lemma StartsWithSudo(words: seq<string>)
    requires ArePlainWords(words)
    ensures StartsWith(Spaced(words), "sudo ") <==> |words| > 1 && words[0] == "sudo"
  {
    if words == [] {
    } else if |words| == 1 {
      assert IsPlainWord(words[0]);
      WordHasNoSpace(words[0]);
    } else {
      SpacedFirst(words);
      assert IsPlainWord(words[0]);
      SudoPrefix(words[0], Spaced(words[1..]), Spaced(words));
    }
  }

  lemma WordHasNoSpace(w: string)
    requires IsPlainWord(w)
    ensures !StartsWith(w, "sudo ")
  {
    assert IsSpace(' ');
    if |w| >= 5 {
      assert w[..5][4] == w[4];
    }
  }

  lemma SudoPrefix(w: string, rest: string, s: string)
    requires IsPlainWord(w) && s == w + (" " + rest)
    ensures StartsWith(s, "sudo ") <==> w == "sudo"
  {
    if StartsWith(s, "sudo ") {
      SudoFirst(w, rest, s);
    }
    if w == "sudo" {
      AfterPrefix("sudo ", rest);
      assert s == "sudo " + rest;
    }
  }

  lemma SudoFirst(w: string, rest: string, s: string)
    requires IsPlainWord(w) && s == w + (" " + rest) && StartsWith(s, "sudo ")
    ensures w == "sudo"
  {
    var p := s[..5];
    assert p[0] == 's' && p[1] == 'u' && p[2] == 'd' && p[3] == 'o' && p[4] == ' ' && IsSpace(' ');
    assert s[|w|] == ' ';
    assert forall k | 0 <= k < |w| :: s[k] == w[k];
    assert forall k | 0 <= k < 5 :: s[k] == p[k];
    assert |w| == 4;
    assert w == "sudo";
  }

  lemma SpacedIsSolid(words: seq<string>)
    requires ArePlainWords(words)
    ensures StripLeft(Spaced(words)) == Spaced(words)
  {
    if words != [] {
      assert IsPlainWord(words[0]);
      assert Spaced(words)[0] == words[0][0];
    }
  }

  /** The rules see the words of the command, less a first `sudo` that others follow, with one space between each
      two. */
  lemma RulesSee(command: string, words: seq<string>)
    requires HasWords(command, words)
    ensures Target(command) == Spaced(Seen(words))
  {
    WordsAreWords(command, words);
    StrippedWords(command);
    SplitHasWords(command);
    SudoDropped(words, Spaced(words));
  }

  lemma SudoDropped(words: seq<string>, s: string)
    requires ArePlainWords(words) && s == Spaced(words)
    ensures (if StartsWith(s, "sudo ") then StripLeft(s[5..]) else s) == Spaced(Seen(words))
  {
    StartsWithSudo(words);
    if |words| > 1 && words[0] == "sudo" {
      SpacedFirst(words);
      AfterSudo(s, Spaced(words[1..]));
      SpacedIsSolid(words[1..]);
    }
  }

  lemma AfterSudo(s: string, rest: string)
    requires s == "sudo" + (" " + rest)
    ensures |s| >= 5 && s[5..] == rest
  {
  }

  /** Those words, and no others, are the words of what the rules see. */
  lemma {:induction false} SpacedHasWords(words: seq<string>)
    requires ArePlainWords(words)
    ensures HasWords(Spaced(words), words)
  {
    if |words| == 1 {
      AfterSuffix(words[0]);
      AddWord(words[0], "", words[0], []);
      assert words == [words[0]] + [];
    } else if words != [] {
      var rest := Spaced(words[1..]);
      SpacedHasWords(words[1..]);
      MoreSpace(" ", rest, " " + rest, words[1..]);
      SpacedFirst(words);
      AddWord(words[0], " " + rest, Spaced(words), words[1..]);
      assert words == [words[0]] + words[1..];
    }
  }

  /** Spacing makes no difference to the rules, nor does one `sudo` in front of a command that has words and no
      `sudo` of its own to lose. */
  lemma SameForTheRules(a: string, b: string, words: seq<string>)
    requires HasWords(a, words) && (HasWords(b, words) || HasWords(b, ["sudo"] + words))
    requires HasWords(b, ["sudo"] + words) ==> words != [] && (words[0] == "sudo" ==> |words| == 1)
    ensures Target(a) == Target(b)
  {
    RulesSee(a, words);
    if HasWords(b, words) {
      RulesSee(b, words);
    } else {
      RulesSee(b, ["sudo"] + words);
      SudoIsNotSeen(words, ["sudo"] + words);
    }
  }

  lemma SudoIsNotSeen(words: seq<string>, more: seq<string>)
    requires more == ["sudo"] + words && words != [] && (words[0] == "sudo" ==> |words| == 1)
    ensures Seen(more) == words == Seen(words)
  {
    assert more[1..] == words;
  }
}
