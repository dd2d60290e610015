/** References to the interactive elements of a page: numbering them in one walk over the accessibility tree,
    and reading a reference back (tools/browser_tool.py). */
module BrowserRefs {
  import opened Text

  datatype Node = Node(role: string, name: string, value: string, children: seq<Node>)

  const INTERACTIVE := ["link", "button", "textbox", "checkbox", "radio", "combobox", "menuitem", "tab", "switch",
    "searchbox", "spinbutton", "slider", "option", "menuitemcheckbox", "menuitemradio", "treeitem"]

  const LANDMARKS := ["heading", "text", "paragraph", "img", "navigation", "main", "banner"]

  /** Which roles get a reference, and which are shown in a compact snapshot. */
  datatype Roles = Roles(interactive: string -> bool, landmark: string -> bool)

  /** The roles of `_walk_tree`. */
  function PageRoles(): Roles {
    Roles(role => role in INTERACTIVE, role => role in LANDMARKS)
  }

  /** The label after a reference. */
  function Label(node: Node): string {
    var name := Strip(node.name);
    if name != "" && node.value != "" then name + ": " + node.value
    else if name != "" then name
    else if node.value != "" then node.value
    else node.role
  }

  /** What one line of a snapshot says. */
  datatype Entry = Ref(number: nat, depth: nat, role: string, caption: string) | Plain(depth: nat, role: string, name: string)

  function Indent(depth: nat): string {
    if depth == 0 then "" else "  " + Indent(depth - 1)
  }

  function RefName(number: nat): string {
    "@e" + Decimal(number)
  }

  function Rendered(e: Entry): string {
    match e
    case Ref(number, depth, role, caption) => Indent(depth) + "[" + RefName(number) + "] " + role + ": " + caption
    case Plain(depth, role, name) => Indent(depth) + role + ": " + name
  }

  function RenderedAll(entries: seq<Entry>): seq<string> {
    if entries == [] then [] else [Rendered(entries[0])] + RenderedAll(entries[1..])
  }

  /** Two spaces for each level. */
  predicate IsIndent(s: string, depth: nat) {
    |s| == 2 * depth && forall k | 0 <= k < |s| :: s[k] == ' '
  }

  lemma {:induction false} IndentIs(depth: nat)
    ensures IsIndent(Indent(depth), depth)
  {
    if depth > 0 {
      IndentIs(depth - 1);
    }
  }

  /** The label of a node: its name and value, one of them if the other is missing, and else its role. */
  predicate IsLabel(caption: string, node: Node) {
    var name := Strip(node.name);
    && (name != "" && node.value != "" ==> caption == name + ": " + node.value)
    && (name != "" && node.value == "" ==> caption == name)
    && (name == "" && node.value != "" ==> caption == node.value)
    && (name == "" && node.value == "" ==> caption == node.role)
  }

  /** The text of an interactive node that gets reference `number`. */
  ghost predicate IsRefLine(line: string, node: Node, depth: nat, number: nat) {
    exists indent: string, caption: string | IsIndent(indent, depth) && IsLabel(caption, node) ::
      line == indent + "[" + ("@e" + Decimal(number)) + "] " + node.role + ": " + caption
  }

  /** The text of any other node that is shown. */
  ghost predicate IsPlainLine(line: string, node: Node, depth: nat) {
    exists indent: string | IsIndent(indent, depth) :: line == indent + node.role + ": " + Strip(node.name)
  }

  /** The roles that get references, and those that a compact snapshot shows. */
  lemma RolesOfPage(role: string)
    ensures PageRoles().interactive(role) <==>
      role in {"link", "button", "textbox", "checkbox", "radio", "combobox", "menuitem", "tab", "switch", "searchbox",
               "spinbutton", "slider", "option", "menuitemcheckbox", "menuitemradio", "treeitem"}
    ensures PageRoles().landmark(role) <==>
      role in {"heading", "text", "paragraph", "img", "navigation", "main", "banner"}
  {
  }

  // ---------- The walk ----------

  /** The line of the node itself, where `n` references are given already. */
  function Own(roles: Roles, node: Node, depth: nat, full: bool, n: nat): seq<Entry> {
    if roles.interactive(node.role) then [Ref(n + 1, depth, node.role, Label(node))]
    else if (full || roles.landmark(node.role)) && Strip(node.name) != "" then [Plain(depth, node.role, Strip(node.name))]
    else []
  }

  function Given(roles: Roles, node: Node, n: nat): nat {
    if roles.interactive(node.role) then n + 1 else n
  }

  /** `_walk_tree`: the lines, and how many references are given after them. */
  function Walk(roles: Roles, node: Node, depth: nat, full: bool, n: nat): (seq<Entry>, nat)
    decreases node, 0
  {
    var below := WalkAll(roles, node.children, depth + 1, full, Given(roles, node, n));
    (Own(roles, node, depth, full, n) + below.0, below.1)
  }

  function WalkAll(roles: Roles, nodes: seq<Node>, depth: nat, full: bool, n: nat): (seq<Entry>, nat)
    decreases nodes, 1
  {
    if nodes == [] then ([], n) else
      var first := Walk(roles, nodes[0], depth, full, n);
      var rest := WalkAll(roles, nodes[1..], depth, full, first.1);
      (first.0 + rest.0, rest.1)
  }

  /** The interactive nodes in preorder. */
  function Interactive(roles: Roles, node: Node): seq<Node>
    decreases node, 0
  {
    (if roles.interactive(node.role) then [node] else []) + InteractiveAll(roles, node.children)
  }

  function InteractiveAll(roles: Roles, nodes: seq<Node>): seq<Node>
    decreases nodes, 1
  {
    if nodes == [] then [] else Interactive(roles, nodes[0]) + InteractiveAll(roles, nodes[1..])
  }

  /** What a node adds to the lines: an interactive one its line with the next reference; another with a name its
      line, if all are shown or it is a landmark; else nothing. */
  ghost predicate ShowsNode(roles: Roles, node: Node, depth: nat, full: bool, n: nat, was: seq<string>, now: seq<string>)
  {
    if roles.interactive(node.role) then
      |now| == |was| + 1 && now[..|was|] == was && IsRefLine(now[|was|], node, depth, n + 1)
    else if (full || roles.landmark(node.role)) && Strip(node.name) != "" then
      |now| == |was| + 1 && now[..|was|] == was && IsPlainLine(now[|was|], node, depth)
    else now == was
  }

  /** What the walk adds for a node itself. */
  lemma NodeIsShown(roles: Roles, node: Node, depth: nat, full: bool, n: nat, was: seq<string>)
    ensures ShowsNode(roles, node, depth, full, n, was, was + RenderedAll(Own(roles, node, depth, full, n)))
  {
    IndentIs(depth);
    OwnRendered(roles, node, depth, full, n);
    AfterSuffix(was);
    assert IsLabel(Label(node), node);
    assert IsRefLine(Rendered(Ref(n + 1, depth, node.role, Label(node))), node, depth, n + 1);
    assert IsPlainLine(Rendered(Plain(depth, node.role, Strip(node.name))), node, depth);
  }

  /** The lists a walk fills. */
  class Snapshot {
    const roles: Roles
    var lines: seq<string>
    var refs: nat

    constructor (roles: Roles)
      ensures this.roles == roles && lines == [] && refs == 0
    {
      this.roles := roles;
      lines, refs := [], 0;
    }

    /** The line of the node itself. */
    method AddLine(node: Node, depth: nat, full: bool)
      modifies this
      ensures lines == old(lines) + RenderedAll(Own(roles, node, depth, full, old(refs)))
      ensures refs == Given(roles, node, old(refs))
    {
      OwnRendered(roles, node, depth, full, refs);
      AfterSuffix(lines);
      if roles.interactive(node.role) {
        refs := refs + 1;
        lines := lines + [Rendered(Ref(refs, depth, node.role, Label(node)))];
      } else if full || roles.landmark(node.role) {
        if Strip(node.name) != "" {
          lines := lines + [Rendered(Plain(depth, node.role, Strip(node.name)))];
        }
      }
    }

    method WalkTree(node: Node, depth: nat, full: bool)
      modifies this
      ensures var w := Walk(roles, node, depth, full, old(refs));
        lines == old(lines) + RenderedAll(w.0) && refs == w.1
      decreases node, 0
    {
      ghost var whole := Walk(roles, node, depth, full, refs);
      ghost var start, own := lines, Own(roles, node, depth, full, refs);
      AddLine(node, depth, full);
      ghost var below := WalkAll(roles, node.children, depth + 1, full, refs);
      assert whole == (own + below.0, below.1);
      ghost var shown := lines;
      var i := 0;
      ghost var done: seq<Entry> := [];
      AfterSuffix(lines);
      AfterPrefix([], below.0);
      assert node.children[0..] == node.children;
      while i < |node.children|
        invariant 0 <= i <= |node.children|
        invariant lines == shown + RenderedAll(done)
        invariant Rest(done, WalkAll(roles, node.children[i..], depth + 1, full, refs)) == below
      {
        ghost var now := refs;
        WalkTree(node.children[i], depth + 1, full);
        WalkMore(roles, done, node.children, i, depth + 1, full, now);
        ghost var first := Walk(roles, node.children[i], depth + 1, full, now).0;
        RenderedAppend(done, first);
        ConcatAssoc(shown, RenderedAll(done), RenderedAll(first));
        done := done + first;
        i := i + 1;
      }
      assert node.children[i..] == [];
      AfterSuffix(done);
      RenderedAppend(own, below.0);
      ConcatAssoc(start, RenderedAll(own), RenderedAll(below.0));
    }
  }

  /** A walk that comes after the lines `done`. */
  function Rest(done: seq<Entry>, w: (seq<Entry>, nat)): (seq<Entry>, nat) {
    (done + w.0, w.1)
  }

  lemma WalkMore(roles: Roles, done: seq<Entry>, nodes: seq<Node>, i: nat, depth: nat, full: bool, n: nat)
    requires i < |nodes|
    ensures var first := Walk(roles, nodes[i], depth, full, n);
      Rest(done, WalkAll(roles, nodes[i..], depth, full, n)) ==
      Rest(done + first.0, WalkAll(roles, nodes[i + 1..], depth, full, first.1))
  {
    var first := Walk(roles, nodes[i], depth, full, n);
    WalkFront(roles, nodes, i, depth, full, n);
    ConcatAssoc(done, first.0, WalkAll(roles, nodes[i + 1..], depth, full, first.1).0);
  }

  lemma OwnRendered(roles: Roles, node: Node, depth: nat, full: bool, n: nat)
    ensures RenderedAll(Own(roles, node, depth, full, n)) ==
            if Own(roles, node, depth, full, n) == [] then [] else [Rendered(Own(roles, node, depth, full, n)[0])]
  {
  }

  lemma WalkFront(roles: Roles, nodes: seq<Node>, i: nat, depth: nat, full: bool, n: nat)
    requires i < |nodes|
    ensures var first := Walk(roles, nodes[i], depth, full, n);
      var rest := WalkAll(roles, nodes[i + 1..], depth, full, first.1);
      WalkAll(roles, nodes[i..], depth, full, n) == (first.0 + rest.0, rest.1)
  {
    assert nodes[i..][0] == nodes[i] && nodes[i..][1..] == nodes[i + 1..];
  }

  lemma {:induction false} RenderedAppend(a: seq<Entry>, b: seq<Entry>)
    ensures RenderedAll(a + b) == RenderedAll(a) + RenderedAll(b)
  {
    if a == [] {
      AfterPrefix([], b);
    } else {
      assert (a + b)[0] == a[0] && (a + b)[1..] == a[1..] + b;
      RenderedAppend(a[1..], b);
      ConcatAssoc([Rendered(a[0])], RenderedAll(a[1..]), RenderedAll(b));
    }
  }

  // ---------- Numbering ----------

  /** The entries with a reference. */
  function Refs(entries: seq<Entry>): seq<Entry> {
    if entries == [] then [] else (if entries[0].Ref? then [entries[0]] else []) + Refs(entries[1..])
  }

  lemma {:induction false} RefsAppend(a: seq<Entry>, b: seq<Entry>)
    ensures Refs(a + b) == Refs(a) + Refs(b)
  {
    if a == [] {
      AfterPrefix([], b);
    } else {
      assert (a + b)[0] == a[0] && (a + b)[1..] == a[1..] + b;
      RefsAppend(a[1..], b);
      ConcatAssoc(if a[0].Ref? then [a[0]] else [], Refs(a[1..]), Refs(b));
    }
  }

  ghost predicate NumberAt(refs: seq<Entry>, nodes: seq<Node>, n: nat, k: nat)
    requires k < |refs| == |nodes|
  {
    refs[k].Ref? && refs[k].number == n + k + 1 && refs[k].role == nodes[k].role && refs[k].caption == Label(nodes[k])
  }

  /** The references name the nodes, in order, from `n + 1` on. */
  ghost predicate Numbers(refs: seq<Entry>, nodes: seq<Node>, n: nat) {
    |refs| == |nodes| && forall k | 0 <= k < |refs| :: NumberAt(refs, nodes, n, k)
  }

  lemma NumbersAppend(a: seq<Entry>, b: seq<Entry>, p: seq<Node>, q: seq<Node>, n: nat)
    requires Numbers(a, p, n) && Numbers(b, q, n + |p|)
    ensures Numbers(a + b, p + q, n)
  {
    forall k | 0 <= k < |a + b|
      ensures NumberAt(a + b, p + q, n, k)
    {
      if k < |a| {
        assert NumberAt(a, p, n, k);
      } else {
        assert NumberAt(b, q, n + |p|, k - |a|);
      }
    }
  }

  lemma JoinNumbers(a: seq<Entry>, b: seq<Entry>, p: seq<Node>, q: seq<Node>, n: nat, m: nat)
    requires Numbers(Refs(a), p, n) && Numbers(Refs(b), q, m) && m == n + |p|
    ensures Numbers(Refs(a + b), p + q, n)
  {
    RefsAppend(a, b);
    NumbersAppend(Refs(a), Refs(b), p, q, n);
  }

  lemma OwnNumbers(roles: Roles, node: Node, depth: nat, full: bool, n: nat)
    ensures var own := if roles.interactive(node.role) then [node] else [];
      Numbers(Refs(Own(roles, node, depth, full, n)), own, n) && Given(roles, node, n) == n + |own|
  {
    var own := Own(roles, node, depth, full, n);
    if own != [] {
      assert own[1..] == [];
    }
  }

  lemma {:induction false} WalkNumbers(roles: Roles, node: Node, depth: nat, full: bool, n: nat)
    ensures Numbers(Refs(Walk(roles, node, depth, full, n).0), Interactive(roles, node), n)
    ensures Walk(roles, node, depth, full, n).1 == n + |Interactive(roles, node)|
    decreases node, 0
  {
    var own := if roles.interactive(node.role) then [node] else [];
    var g, lines := Given(roles, node, n), Own(roles, node, depth, full, n);
    var below := WalkAll(roles, node.children, depth + 1, full, g);
    OwnNumbers(roles, node, depth, full, n);
    WalkAllNumbers(roles, node.children, depth + 1, full, g);
    JoinNumbers(lines, below.0, own, InteractiveAll(roles, node.children), n, g);
  }

  lemma {:induction false} WalkAllNumbers(roles: Roles, nodes: seq<Node>, depth: nat, full: bool, n: nat)
    ensures Numbers(Refs(WalkAll(roles, nodes, depth, full, n).0), InteractiveAll(roles, nodes), n)
    ensures WalkAll(roles, nodes, depth, full, n).1 == n + |InteractiveAll(roles, nodes)|
    decreases nodes, 1
  {
    if nodes != [] {
      var first := Walk(roles, nodes[0], depth, full, n);
      var rest := WalkAll(roles, nodes[1..], depth, full, first.1);
      WalkNumbers(roles, nodes[0], depth, full, n);
      WalkAllNumbers(roles, nodes[1..], depth, full, first.1);
      JoinNumbers(first.0, rest.0, Interactive(roles, nodes[0]), InteractiveAll(roles, nodes[1..]), n, first.1);
    }
  }

  /** Compact and full snapshots number alike: the compact one is the full one without the plain lines of other
      roles than the landmarks. */
  function Compact(roles: Roles, entries: seq<Entry>): seq<Entry> {
    if entries == [] then [] else
      (if entries[0].Ref? || roles.landmark(entries[0].role) then [entries[0]] else []) + Compact(roles, entries[1..])
  }

  lemma {:induction false} CompactAppend(roles: Roles, a: seq<Entry>, b: seq<Entry>)
    ensures Compact(roles, a + b) == Compact(roles, a) + Compact(roles, b)
  {
    if a == [] {
      AfterPrefix([], b);
    } else {
      assert (a + b)[0] == a[0] && (a + b)[1..] == a[1..] + b;
      CompactAppend(roles, a[1..], b);
      ConcatAssoc(if a[0].Ref? || roles.landmark(a[0].role) then [a[0]] else [], Compact(roles, a[1..]), Compact(roles, b));
    }
  }

  lemma OwnCompact(roles: Roles, node: Node, depth: nat, n: nat)
    ensures Own(roles, node, depth, false, n) == Compact(roles, Own(roles, node, depth, true, n))
  {
    var own := Own(roles, node, depth, true, n);
    if own != [] {
      assert own[1..] == [];
    }
  }

  lemma {:induction false} CompactIsFiltered(roles: Roles, node: Node, depth: nat, n: nat)
    ensures Walk(roles, node, depth, false, n) ==
            (Compact(roles, Walk(roles, node, depth, true, n).0), Walk(roles, node, depth, true, n).1)
    decreases node, 0
  {
    OwnCompact(roles, node, depth, n);
    CompactIsFilteredAll(roles, node.children, depth + 1, Given(roles, node, n));
    CompactAppend(roles, Own(roles, node, depth, true, n),
      WalkAll(roles, node.children, depth + 1, true, Given(roles, node, n)).0);
  }

  lemma {:induction false} CompactIsFilteredAll(roles: Roles, nodes: seq<Node>, depth: nat, n: nat)
    ensures WalkAll(roles, nodes, depth, false, n) ==
            (Compact(roles, WalkAll(roles, nodes, depth, true, n).0), WalkAll(roles, nodes, depth, true, n).1)
    decreases nodes, 1
  {
    if nodes != [] {
      var first := Walk(roles, nodes[0], depth, true, n);
      CompactIsFiltered(roles, nodes[0], depth, n);
      CompactIsFilteredAll(roles, nodes[1..], depth, first.1);
      CompactAppend(roles, first.0, WalkAll(roles, nodes[1..], depth, true, first.1).0);
    }
  }

  // ---------- Reading a reference ----------

  /** `ref.lstrip("@")` */
  function WithoutAt(s: string): string {
    if s != "" && s[0] == '@' then WithoutAt(s[1..]) else s
  }

  /** The index `_ref_to_selector` puts in its selector; nothing for the exception. */
  function SelectorIndex(ref: string): Option<int> {
    var clean := WithoutAt(ref);
    if clean == "" || clean[0] != 'e' || DigitRun(clean[1..]) == 0 then None
    else Some(DecimalValue(clean[1..][..DigitRun(clean[1..])]) - 1)
  }

  lemma DigitsAlone(digits: string)
    requires AllDigits(digits)
    ensures DigitRun(digits) == |digits| && digits[..DigitRun(digits)] == digits
  {
    assert digits + "" == digits;
    DigitRunOf(digits, "");
  }

  lemma ReadsDigits(digits: string, ref: string)
    requires digits != "" && AllDigits(digits) && ref == "@e" + digits
    ensures SelectorIndex(ref) == Some(DecimalValue(digits) - 1)
  {
    var clean := ref[1..];
    assert ref[0] == '@' && clean[0] == 'e' && clean[1..] == digits;
    assert WithoutAt(ref) == clean;
    DigitsAlone(digits);
  }

  /** A text is read as a reference exactly when it is an `e` and a number, perhaps behind at signs and in front of
      other text; it gives that number less one. */
  ghost predicate IsReference(ref: string, index: int) {
    exists ats: string, digits: string, more: string | AllAts(ats) && digits != "" && AllDigits(digits) ::
      && ref == ats + ("e" + (digits + more)) && (more == "" || !IsDigit(more[0]))
      && index == DecimalValue(digits) - 1
  }

  predicate AllAts(s: string) {
    forall k | 0 <= k < |s| :: s[k] == '@'
  }

  lemma {:induction false} WithoutAtOf(ats: string, rest: string)
    requires AllAts(ats) && (rest == "" || rest[0] != '@')
    ensures WithoutAt(ats + rest) == rest
  {
    if ats == "" {
      AfterPrefix("", rest);
    } else {
      assert (ats + rest)[0] == ats[0] && (ats + rest)[1..] == ats[1..] + rest;
      WithoutAtOf(ats[1..], rest);
    }
  }

  lemma {:induction false} AtsBefore(s: string) returns (ats: string)
    ensures AllAts(ats) && s == ats + WithoutAt(s)
  {
    if s != "" && s[0] == '@' {
      var front := AtsBefore(s[1..]);
      ats := "@" + front;
      assert s == [s[0]] + s[1..];
    } else {
      ats := "";
    }
  }

  lemma ReferencePattern(ref: string, index: int)
    ensures SelectorIndex(ref) == Some(index) <==> IsReference(ref, index)
  {
    if IsReference(ref, index) {
      var ats: string, digits: string, more: string :| AllAts(ats) && digits != "" && AllDigits(digits)
        && ref == ats + ("e" + (digits + more)) && (more == "" || !IsDigit(more[0])) && index == DecimalValue(digits) - 1;
      WithoutAtOf(ats, "e" + (digits + more));
      EThenNumber("e" + (digits + more), digits, more);
    }
    if SelectorIndex(ref) == Some(index) {
      var ats := AtsBefore(ref);
      var clean := WithoutAt(ref);
      var n := DigitRun(clean[1..]);
      NumberInside(ref, ats, clean, clean[1..][..n], clean[1..][n..]);
    }
  }

  lemma EThenNumber(clean: string, digits: string, more: string)
    requires clean == "e" + (digits + more) && AllDigits(digits) && (more == "" || !IsDigit(more[0]))
    ensures clean[0] == 'e' && DigitRun(clean[1..]) == |digits| && clean[1..][..|digits|] == digits
  {
    assert clean[1..] == digits + more;
    DigitRunOf(digits, more);
    AfterPrefix(digits, more);
  }

  lemma NumberInside(ref: string, ats: string, clean: string, digits: string, more: string)
    requires AllAts(ats) && ref == ats + clean && clean != "" && clean[0] == 'e' && clean[1..] == digits + more
    requires digits != "" && AllDigits(digits) && (more == "" || !IsDigit(more[0]))
    ensures IsReference(ref, DecimalValue(digits) - 1)
  {
    assert clean == "e" + (digits + more);
  }

  /** The reference of a number reads back as the index before it. */
  lemma RefRoundTrip(number: nat)
    ensures SelectorIndex(RefName(number)) == Some(number - 1)
  {
    ReadsDigits(Decimal(number), RefName(number));
    DecimalRoundTrip(number);
  }

  /** The numbering of a whole page, in full and in compact form: the k-th reference shown is `@ek`, its line
      carries role and label of the k-th interactive node in preorder, and reading it gives the index k - 1 of
      that node. */
  lemma ReferencesNameNodes(roles: Roles, page: Node, full: bool, k: nat)
    requires 1 <= k <= |Interactive(roles, page)|
    ensures var refs := Refs(Walk(roles, page, 0, full, 0).0);
      var nodes := Interactive(roles, page);
      |refs| == |nodes| && refs[k - 1].Ref? && refs[k - 1].number == k &&
      refs[k - 1].role == nodes[k - 1].role && refs[k - 1].caption == Label(nodes[k - 1])
    ensures SelectorIndex(RefName(k)) == Some(k - 1)
  {
    WalkNumbers(roles, page, 0, full, 0);
    assert NumberAt(Refs(Walk(roles, page, 0, full, 0).0), Interactive(roles, page), 0, k - 1);
    RefRoundTrip(k);
  }

  // ---------- The roles of the selector ----------

  const SELECTOR := ["link", "button", "textbox", "checkbox", "radio", "combobox", "menuitem", "tab", "switch",
    "searchbox"]

  /** The position of the `j`th node among `nodes` whose role the selector lists. */
  function Selected(nodes: seq<Node>, j: nat): Option<nat> {
    if nodes == [] then None
    else if nodes[0].role !in SELECTOR then Later(Selected(nodes[1..], j))
    else if j == 0 then Some(0)
    else Later(Selected(nodes[1..], j - 1))
  }

  function Later(p: Option<nat>): Option<nat> {
    if p.None? then None else Some(p.value + 1)
  }

  lemma {:induction false} SelectedAtLeast(nodes: seq<Node>, j: nat)
    ensures Selected(nodes, j).Some? ==> Selected(nodes, j).value >= j
    ensures Selected(nodes, j) == Some(j) <==> j < |nodes| && forall i | 0 <= i <= j :: nodes[i].role in SELECTOR
  {
    if nodes != [] {
      SelectedAtLeast(nodes[1..], j);
      if nodes[0].role in SELECTOR && j > 0 {
        SelectedAtLeast(nodes[1..], j - 1);
        assert (forall i | 0 <= i <= j - 1 && j - 1 < |nodes[1..]| :: nodes[1..][i].role in SELECTOR) <==>
          (forall i | 1 <= i <= j && j < |nodes| :: nodes[i].role in SELECTOR);
      }
    }
  }

  /** References count sixteen roles and the selector lists ten of them. Taken as the n-th element of its roles,
      the selector of `@ek` finds the node the reference names exactly when no interactive node up to that one
      has one of the other six roles. */
  lemma SelectorFindsNode(page: Node, k: nat)
    requires 1 <= k <= |Interactive(PageRoles(), page)|
    ensures SelectorIndex(RefName(k)) == Some(k - 1)
    ensures Selected(Interactive(PageRoles(), page), k - 1) == Some(k - 1) <==>
            forall i | 0 <= i < k :: Interactive(PageRoles(), page)[i].role in SELECTOR
  {
    RefRoundTrip(k);
    SelectedAtLeast(Interactive(PageRoles(), page), k - 1);
  }
}
