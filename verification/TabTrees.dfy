/**
 The nesting of tabs, read from a reStructuredText outline and from a Markdown one, and
 exactly when the conversion preserves it.
 */
module TabTrees {
  import opened CodeBodies
  import opened Tabs
  import opened Text
  import opened Wrappers

  /** The indent of a directive is all the white space in front of it. */
  ghost predicate IsExact(p: Patterns) {
    forall line | p(line).Some? :: !IsBlank(line) && p(line).value.indent == line[..IndentOf(line)]
  }

  // ---------------------------------------------------------------------------
  // What the pass writes, and how deep
  // ---------------------------------------------------------------------------

  /** A header, a visible line, or a fenced block of code. */
  datatype Item =
    | Head(depth: nat, title: string)
    | Plain(depth: nat, text: string)
    | Code(depth: nat, body: seq<string>)

  function HeadOf(tab: TabLine, tabsIndent: string): Item
    requires !tab.Wrapper?
  {
    Head(|OutIndent(tab.indent, tabsIndent)|, tab.title)
  }

  function CodeOf(lines: seq<string>, tab: TabLine, tabsIndent: string): Item
    requires lines != []
  {
    Code(|OutIndent(tab.indent, tabsIndent)| + 4, Trimmed(Unindented(BodyOf(lines, tab), |tab.indent| + 4)))
  }

  function PlainItems(line: string): seq<Item> {
    if IsBlank(line) then [] else [Plain(IndentOf(line), LStrip(line))]
  }

  function ItemsOf(lines: seq<string>, tabsIndent: string, p: Patterns): seq<Item>
    decreases |lines|
  {
    if lines == [] then []
    else
      match p(lines[0])
      case None => PlainItems(lines[0]) + ItemsOf(lines[1..], tabsIndent, p)
      case Some(Wrapper(indent)) => ItemsOf(AfterBlank(lines[1..]), indent, p)
      case Some(CodeTab(indent, title)) =>
        var tab := CodeTab(indent, title);
        [HeadOf(tab, tabsIndent)] + ([CodeOf(lines, tab, tabsIndent)] + ItemsOf(AfterBlock(lines, tab), tabsIndent, p))
      case Some(Tab(indent, title)) => [HeadOf(Tab(indent, title), tabsIndent)] + ItemsOf(lines[1..], tabsIndent, p)
  }

  /** The wrapper indent that the pass still remembers at the end. */
  function EndIndent(lines: seq<string>, tabsIndent: string, p: Patterns): string
    decreases |lines|
  {
    if lines == [] then tabsIndent
    else
      match p(lines[0])
      case None => EndIndent(lines[1..], tabsIndent, p)
      case Some(Wrapper(indent)) => EndIndent(AfterBlank(lines[1..]), indent, p)
      case Some(CodeTab(indent, title)) => EndIndent(AfterBlock(lines, CodeTab(indent, title)), tabsIndent, p)
      case Some(Tab(_, _)) => EndIndent(lines[1..], tabsIndent, p)
  }

  // ---------------------------------------------------------------------------
  // Two outlines
  // ---------------------------------------------------------------------------

  datatype Block = Leaf(text: string) | CodeLeaf(body: seq<string>) | Node(title: string, children: seq<Block>)

  /** How many items stay at least this deep. */
  function DeepItems(items: seq<Item>, depth: nat): (n: nat)
    ensures n <= |items| && forall i | 0 <= i < n :: items[i].depth >= depth
    ensures n < |items| ==> items[n].depth < depth
  {
    if items == [] || items[0].depth < depth then 0 else 1 + DeepItems(items[1..], depth)
  }

  /** Markdown: a header owns the items that follow it and are at least four deeper. */
  function MarkdownTree(items: seq<Item>): seq<Block>
    decreases |items|
  {
    if items == [] then []
    else
      match items[0]
      case Plain(_, text) => [Leaf(text)] + MarkdownTree(items[1..])
      case Code(_, body) => [CodeLeaf(body)] + MarkdownTree(items[1..])
      case Head(depth, title) =>
        var n := DeepItems(items[1..], depth + 4);
        [Node(title, MarkdownTree(items[1..][..n]))] + MarkdownTree(items[1..][n..])
  }

  /** A directive with the blank or deeper lines that follow it, and the lines after those. */
  function OwnOf(lines: seq<string>): (own: seq<string>)
    requires lines != []
    ensures own != [] && own[0] == lines[0] && |own| <= |lines|
  {
    lines[..1 + Owned(lines[1..], IndentOf(lines[0]) + 1)]
  }

  function AfterOwn(lines: seq<string>): (after: seq<string>)
    requires lines != []
    ensures |after| < |lines| && OwnOf(lines) + after == lines
  {
    lines[1 + Owned(lines[1..], IndentOf(lines[0]) + 1)..]
  }

  predicate StartsTab(lines: seq<string>, p: Patterns) {
    lines != [] && p(lines[0]).Some? && !p(lines[0]).value.Wrapper?
  }

  /** The lines of a tab but for its own code. */
  function InsideOf(own: seq<string>, p: Patterns): (inside: seq<string>)
    requires StartsTab(own, p)
    ensures |inside| < |own|
  {
    if p(own[0]).value.Tab? then own[1..] else AfterBlock(own, p(own[0]).value)
  }

  function CodeLeaves(own: seq<string>, p: Patterns): seq<Block>
    requires StartsTab(own, p)
  {
    if p(own[0]).value.Tab? then [] else [CodeLeaf(CodeOf(own, p(own[0]).value, "").body)]
  }

  /** reStructuredText: a tab owns its run; wrappers only group tabs and leave no node. */
  function SourceTree(lines: seq<string>, p: Patterns): seq<Block>
    decreases |lines|
  {
    if lines == [] then []
    else
      match p(lines[0])
      case None => (if IsBlank(lines[0]) then [] else [Leaf(LStrip(lines[0]))]) + SourceTree(lines[1..], p)
      case Some(Wrapper(_)) => SourceTree(AfterBlank(lines[1..]), p)
      case Some(tab) =>
        var own := OwnOf(lines);
        [Node(tab.title, CodeLeaves(own, p) + SourceTree(InsideOf(own, p), p))] + SourceTree(AfterOwn(lines), p)
  }

  /** What is written for a tab's run behind the header. */
  function InsideItems(own: seq<string>, tabsIndent: string, p: Patterns): seq<Item>
    requires StartsTab(own, p)
  {
    (if p(own[0]).value.Tab? then [] else [CodeOf(own, p(own[0]).value, tabsIndent)]) +
      ItemsOf(InsideOf(own, p), tabsIndent, p)
  }

  // ---------------------------------------------------------------------------
  // The condition
  // ---------------------------------------------------------------------------

  /** All that is written for a tab is four deeper than its header, and what is written next is not. */
  predicate HoldsTogether(lines: seq<string>, tabsIndent: string, p: Patterns)
    requires StartsTab(lines, p)
  {
    var own := OwnOf(lines);
    var inside := InsideItems(own, tabsIndent, p);
    var next := ItemsOf(AfterOwn(lines), EndIndent(own, tabsIndent, p), p);
    var depth := HeadOf(p(lines[0]).value, tabsIndent).depth + 4;
    (forall i | 0 <= i < |inside| :: inside[i].depth >= depth) && (next != [] ==> next[0].depth < depth)
  }

  predicate Tidy(lines: seq<string>, tabsIndent: string, p: Patterns)
    decreases |lines|
  {
    if lines == [] then true
    else
      match p(lines[0])
      case None => Tidy(lines[1..], tabsIndent, p)
      case Some(Wrapper(indent)) => Tidy(AfterBlank(lines[1..]), indent, p)
      case Some(_) =>
        var own := OwnOf(lines);
        && HoldsTogether(lines, tabsIndent, p)
        && Tidy(InsideOf(own, p), tabsIndent, p)
        && Tidy(AfterOwn(lines), EndIndent(own, tabsIndent, p), p)
  }

  // ---------------------------------------------------------------------------
  // Cutting a text behind a run
  // ---------------------------------------------------------------------------

  /** No code of the first part reaches into the second. */
  predicate CutsAt(a: seq<string>, b: seq<string>, p: Patterns) {
    b != [] ==> !IsBlank(b[0]) && forall i | 0 <= i < |a| && p(a[i]).Some? ::
      IndentOf(b[0]) < |p(a[i]).value.indent| + 4
  }

  lemma {:induction false} BodyEndsAtCut(a: seq<string>, b: seq<string>, minIndent: nat)
    requires b != [] ==> !InBody(b[0], minIndent)
    ensures BodyLength(a + b, minIndent) == BodyLength(a, minIndent)
  {
    if a == [] {
      assert a + b == b;
    } else {
      assert (a + b)[1..] == a[1..] + b;
      BodyEndsAtCut(a[1..], b, minIndent);
    }
  }

  lemma BlankBeforeCut(a: seq<string>, b: seq<string>)
    requires b != [] ==> !IsBlank(b[0])
    ensures AfterBlank(a + b) == AfterBlank(a) + b
  {
    if a == [] {
      assert a + b == b;
    } else {
      assert (a + b)[1..] == a[1..] + b;
    }
  }

  lemma CodeBeforeCut(a: seq<string>, b: seq<string>, tab: TabLine)
    requires a != [] && (b != [] ==> !IsBlank(b[0]) && IndentOf(b[0]) < |tab.indent| + 4)
    ensures BodyOf(a + b, tab) == BodyOf(a, tab) && AfterBlock(a + b, tab) == AfterBlock(a, tab) + b
  {
    var rest, n := AfterBlank(a[1..]), |tab.indent| + 4;
    assert (a + b)[1..] == a[1..] + b;
    BlankBeforeCut(a[1..], b);
    BodyEndsAtCut(rest, b, n);
    var k := BodyLength(rest, n);
    assert (rest + b)[..k] == rest[..k] && (rest + b)[k..] == rest[k..] + b;
  }

  lemma CutMovesOn(a: seq<string>, b: seq<string>, k: nat, p: Patterns)
    requires CutsAt(a, b, p) && k <= |a|
    ensures CutsAt(a[k..], b, p)
  {
    assert forall i | 0 <= i < |a| - k :: a[k..][i] == a[k + i];
  }

  /** What is written for a text is written for its parts, if a cut separates them. */
  lemma {:induction false} ItemsSplit(a: seq<string>, b: seq<string>, tabsIndent: string, p: Patterns)
    requires CutsAt(a, b, p)
    ensures ItemsOf(a + b, tabsIndent, p) == ItemsOf(a, tabsIndent, p) + ItemsOf(b, EndIndent(a, tabsIndent, p), p)
    decreases |a|
  {
    if a == [] {
      assert a + b == b;
    } else {
      assert (a + b)[0] == a[0] && (a + b)[1..] == a[1..] + b;
      CutMovesOn(a, b, 1, p);
      match p(a[0]) {
        case None =>
          ItemsSplit(a[1..], b, tabsIndent, p);
        case Some(Wrapper(indent)) =>
          BlankBeforeCut(a[1..], b);
          CutMovesOn(a[1..], b, |a[1..]| - |AfterBlank(a[1..])|, p);
          ItemsSplit(AfterBlank(a[1..]), b, indent, p);
        case Some(CodeTab(indent, title)) =>
          CodeSplits(a, b, CodeTab(indent, title), tabsIndent, p);
        case Some(Tab(indent, title)) =>
          ItemsSplit(a[1..], b, tabsIndent, p);
      }
    }
  }

  lemma AfterBlockIsTail(lines: seq<string>, tab: TabLine) returns (k: nat)
    requires lines != []
    ensures 0 < k <= |lines| && AfterBlock(lines, tab) == lines[k..]
  {
    var rest := AfterBlank(lines[1..]);
    k := |lines| - |AfterBlock(lines, tab)|;
    assert rest == lines[|lines| - |rest|..];
  }

  lemma CodeSplits(a: seq<string>, b: seq<string>, tab: TabLine, tabsIndent: string, p: Patterns)
    requires CutsAt(a, b, p) && a != [] && p(a[0]) == Some(tab) && tab.CodeTab?
    ensures ItemsOf(a + b, tabsIndent, p) == ItemsOf(a, tabsIndent, p) + ItemsOf(b, EndIndent(a, tabsIndent, p), p)
    decreases |a|, 0
  {
    CodeBeforeCut(a, b, tab);
    var k := AfterBlockIsTail(a, tab);
    CutMovesOn(a, b, k, p);
    ItemsSplit(AfterBlock(a, tab), b, tabsIndent, p);
    var inside, next := ItemsOf(AfterBlock(a, tab), tabsIndent, p), ItemsOf(b, EndIndent(a, tabsIndent, p), p);
    CodeTabItems(a + b, tab, tabsIndent, p);
    CodeTabItems(a, tab, tabsIndent, p);
    Associate([CodeOf(a, tab, tabsIndent)], inside, next);
    Associate([HeadOf(tab, tabsIndent)], [CodeOf(a, tab, tabsIndent)] + inside, next);
  }

  lemma CodeTabItems(lines: seq<string>, tab: TabLine, tabsIndent: string, p: Patterns)
    requires lines != [] && p(lines[0]) == Some(tab) && tab.CodeTab?
    ensures ItemsOf(lines, tabsIndent, p) ==
            [HeadOf(tab, tabsIndent)] + ([CodeOf(lines, tab, tabsIndent)] +
                                         ItemsOf(AfterBlock(lines, tab), tabsIndent, p))
  {
  }

  lemma OwnIsCut(lines: seq<string>, p: Patterns)
    requires IsExact(p) && StartsTab(lines, p)
    ensures CutsAt(OwnOf(lines), AfterOwn(lines), p)
  {
    var own, depth := OwnOf(lines), IndentOf(lines[0]) + 1;
    var n := Owned(lines[1..], depth);
    forall i | 0 <= i < |own| && p(own[i]).Some?
      ensures IndentOf(lines[0]) <= |p(own[i]).value.indent|
    {
      assert i > 0 ==> own[i] == lines[1..][i - 1];
    }
    assert AfterOwn(lines) != [] ==> AfterOwn(lines)[0] == lines[1..][n];
  }

  lemma ItemsOfOwn(own: seq<string>, tabsIndent: string, p: Patterns)
    requires StartsTab(own, p)
    ensures ItemsOf(own, tabsIndent, p) == [HeadOf(p(own[0]).value, tabsIndent)] + InsideItems(own, tabsIndent, p)
  {
    if p(own[0]).value.Tab? {
      assert InsideItems(own, tabsIndent, p) == ItemsOf(own[1..], tabsIndent, p);
    }
  }

  lemma ItemsOfParts(lines: seq<string>, tabsIndent: string, p: Patterns)
    requires IsExact(p) && StartsTab(lines, p)
    ensures ItemsOf(lines, tabsIndent, p) ==
            ItemsOf(OwnOf(lines), tabsIndent, p) + ItemsOf(AfterOwn(lines), EndIndent(OwnOf(lines), tabsIndent, p), p)
  {
    OwnIsCut(lines, p);
    ItemsSplit(OwnOf(lines), AfterOwn(lines), tabsIndent, p);
  }

  /** What is written for a tab and all that follows it. */
  lemma ItemsOfTab(lines: seq<string>, tabsIndent: string, p: Patterns)
    requires IsExact(p) && StartsTab(lines, p)
    ensures var own := OwnOf(lines);
            ItemsOf(lines, tabsIndent, p) ==
              [HeadOf(p(lines[0]).value, tabsIndent)] +
              (InsideItems(own, tabsIndent, p) + ItemsOf(AfterOwn(lines), EndIndent(own, tabsIndent, p), p))
  {
    var own := OwnOf(lines);
    ItemsOfParts(lines, tabsIndent, p);
    ItemsOfOwn(own, tabsIndent, p);
    Associate([HeadOf(p(lines[0]).value, tabsIndent)], InsideItems(own, tabsIndent, p),
              ItemsOf(AfterOwn(lines), EndIndent(own, tabsIndent, p), p));
  }

  // ---------------------------------------------------------------------------
  // Sizes
  // ---------------------------------------------------------------------------

  function Size(blocks: seq<Block>): nat {
    if blocks == [] then 0
    else (if blocks[0].Node? then 1 + Size(blocks[0].children) else 1) + Size(blocks[1..])
  }

  lemma {:induction false} SizeAppend(a: seq<Block>, b: seq<Block>)
    ensures Size(a + b) == Size(a) + Size(b)
  {
    if a == [] {
      assert a + b == b;
    } else {
      assert (a + b)[1..] == a[1..] + b;
      SizeAppend(a[1..], b);
    }
  }

  lemma SizeOfNode(title: string, children: seq<Block>, rest: seq<Block>)
    ensures Size([Node(title, children)] + rest) == 1 + Size(children) + Size(rest)
  {
    assert ([Node(title, children)] + rest)[1..] == rest;
  }

  lemma {:induction false} MarkdownSize(items: seq<Item>)
    ensures Size(MarkdownTree(items)) == |items|
    decreases |items|
  {
    if items != [] {
      var rest := items[1..];
      if items[0].Head? {
        var n := DeepItems(rest, items[0].depth + 4);
        MarkdownSize(rest[..n]);
        MarkdownSize(rest[n..]);
        SizeOfNode(items[0].title, MarkdownTree(rest[..n]), MarkdownTree(rest[n..]));
      } else {
        MarkdownSize(rest);
        assert MarkdownTree(items)[1..] == MarkdownTree(rest);
      }
    }
  }

  /** What the source says a tab owns. */
  function ChildrenOf(own: seq<string>, p: Patterns): seq<Block>
    requires StartsTab(own, p)
  {
    CodeLeaves(own, p) + SourceTree(InsideOf(own, p), p)
  }

  lemma SourceOfTab(lines: seq<string>, p: Patterns)
    requires StartsTab(lines, p)
    ensures SourceTree(lines, p) ==
            [Node(p(lines[0]).value.title, ChildrenOf(OwnOf(lines), p))] + SourceTree(AfterOwn(lines), p)
  {
  }

  lemma ChildrenSize(own: seq<string>, tabsIndent: string, p: Patterns)
    requires StartsTab(own, p) && Size(SourceTree(InsideOf(own, p), p)) == |ItemsOf(InsideOf(own, p), tabsIndent, p)|
    ensures Size(ChildrenOf(own, p)) == |InsideItems(own, tabsIndent, p)|
  {
    SizeAppend(CodeLeaves(own, p), SourceTree(InsideOf(own, p), p));
  }

  lemma TabSize(lines: seq<string>, tabsIndent: string, p: Patterns)
    requires IsExact(p) && StartsTab(lines, p)
    requires Size(ChildrenOf(OwnOf(lines), p)) == |InsideItems(OwnOf(lines), tabsIndent, p)|
    requires Size(SourceTree(AfterOwn(lines), p)) ==
             |ItemsOf(AfterOwn(lines), EndIndent(OwnOf(lines), tabsIndent, p), p)|
    ensures Size(SourceTree(lines, p)) == |ItemsOf(lines, tabsIndent, p)|
  {
    ItemsOfTab(lines, tabsIndent, p);
    SourceOfTab(lines, p);
    SizeOfNode(p(lines[0]).value.title, ChildrenOf(OwnOf(lines), p), SourceTree(AfterOwn(lines), p));
  }

  lemma {:induction false} SourceSize(lines: seq<string>, tabsIndent: string, p: Patterns)
    requires IsExact(p)
    ensures Size(SourceTree(lines, p)) == |ItemsOf(lines, tabsIndent, p)|
    decreases |lines|
  {
    if lines != [] {
      match p(lines[0]) {
        case None =>
          SourceSize(lines[1..], tabsIndent, p);
          SizeAppend(if IsBlank(lines[0]) then [] else [Leaf(LStrip(lines[0]))], SourceTree(lines[1..], p));
        case Some(Wrapper(indent)) =>
          SourceSize(AfterBlank(lines[1..]), indent, p);
        case Some(tab) =>
          var own := OwnOf(lines);
          SourceSize(InsideOf(own, p), tabsIndent, p);
          SourceSize(AfterOwn(lines), EndIndent(own, tabsIndent, p), p);
          ChildrenSize(own, tabsIndent, p);
          TabSize(lines, tabsIndent, p);
      }
    }
  }

  // ---------------------------------------------------------------------------
  // The theorem
  // ---------------------------------------------------------------------------

  predicate TreePreserved(lines: seq<string>, tabsIndent: string, p: Patterns) {
    MarkdownTree(ItemsOf(lines, tabsIndent, p)) == SourceTree(lines, p)
  }

  lemma NodesAgreeIff(title: string, a: seq<Block>, restA: seq<Block>, b: seq<Block>, restB: seq<Block>)
    ensures [Node(title, a)] + restA == [Node(title, b)] + restB <==> a == b && restA == restB
  {
    if [Node(title, a)] + restA == [Node(title, b)] + restB {
      assert ([Node(title, a)] + restA)[0] == Node(title, a) && ([Node(title, b)] + restB)[0] == Node(title, b);
      assert ([Node(title, a)] + restA)[1..] == restA && ([Node(title, b)] + restB)[1..] == restB;
    }
  }

  lemma FrontCancels(front: seq<Block>, a: seq<Block>, b: seq<Block>)
    ensures front + a == front + b <==> a == b
  {
    if front + a == front + b {
      assert (front + a)[|front|..] == a && (front + b)[|front|..] == b;
    }
  }

  /** A header takes exactly the first items when those are deep and the next one is not. */
  lemma TakesExactlyIff(first: seq<Item>, next: seq<Item>, depth: nat)
    ensures DeepItems(first + next, depth) == |first| <==>
            (forall i | 0 <= i < |first| :: first[i].depth >= depth) && (next != [] ==> next[0].depth < depth)
  {
    var all, n := first + next, DeepItems(first + next, depth);
    assert forall i | 0 <= i < |first| :: all[i] == first[i];
    assert next != [] ==> all[|first|] == next[0];
    if n == |first| {
      assert forall i | 0 <= i < |first| :: all[i].depth >= depth;
    }
  }

  lemma CodeInFront(code: Item, items: seq<Item>)
    requires code.Code?
    ensures MarkdownTree([code] + items) == [CodeLeaf(code.body)] + MarkdownTree(items)
  {
    assert ([code] + items)[1..] == items;
  }

  lemma InsideTree(own: seq<string>, tabsIndent: string, p: Patterns)
    requires StartsTab(own, p)
    ensures MarkdownTree(InsideItems(own, tabsIndent, p)) ==
            CodeLeaves(own, p) + MarkdownTree(ItemsOf(InsideOf(own, p), tabsIndent, p))
  {
    var tab, items := p(own[0]).value, ItemsOf(InsideOf(own, p), tabsIndent, p);
    if tab.Tab? {
      NothingInFront(items);
    } else {
      CodeInFront(CodeOf(own, tab, tabsIndent), items);
    }
  }

  lemma NothingInFront(items: seq<Item>)
    ensures MarkdownTree([] + items) == [] + MarkdownTree(items)
  {
    assert [] + items == items;
  }

  /** A header over items that should be its children, and items that should follow it. */
  lemma HeaderTreeIff(head: Item, inside: seq<Item>, next: seq<Item>, children: seq<Block>, rest: seq<Block>)
    requires head.Head? && Size(children) == |inside|
    ensures MarkdownTree([head] + (inside + next)) == [Node(head.title, children)] + rest <==>
              && (forall i | 0 <= i < |inside| :: inside[i].depth >= head.depth + 4) &&
                   (next != [] ==> next[0].depth < head.depth + 4)
              && MarkdownTree(inside) == children && MarkdownTree(next) == rest
  {
    var all, n := inside + next, DeepItems(inside + next, head.depth + 4);
    NodeTree(head, all);
    NodesAgreeIff(head.title, MarkdownTree(all[..n]), MarkdownTree(all[n..]), children, rest);
    TakesExactlyIff(inside, next, head.depth + 4);
    MarkdownSize(all[..n]);
    if n == |inside| {
      assert all[..n] == inside && all[n..] == next;
    }
  }

  lemma ChildrenPreservedIff(own: seq<string>, tabsIndent: string, p: Patterns)
    requires StartsTab(own, p)
    ensures MarkdownTree(InsideItems(own, tabsIndent, p)) == ChildrenOf(own, p) <==>
            TreePreserved(InsideOf(own, p), tabsIndent, p)
  {
    InsideTree(own, tabsIndent, p);
    FrontCancels(CodeLeaves(own, p), MarkdownTree(ItemsOf(InsideOf(own, p), tabsIndent, p)),
                 SourceTree(InsideOf(own, p), p));
  }

  /** A tab is preserved exactly when it holds together and what it owns and what follows are preserved. */
  lemma TabPreservedIff(lines: seq<string>, tabsIndent: string, p: Patterns)
    requires IsExact(p) && StartsTab(lines, p)
    ensures TreePreserved(lines, tabsIndent, p) <==>
              && HoldsTogether(lines, tabsIndent, p)
              && MarkdownTree(InsideItems(OwnOf(lines), tabsIndent, p)) == ChildrenOf(OwnOf(lines), p)
              && TreePreserved(AfterOwn(lines), EndIndent(OwnOf(lines), tabsIndent, p), p)
  {
    var own := OwnOf(lines);
    ItemsOfTab(lines, tabsIndent, p);
    SourceOfTab(lines, p);
    SourceSize(InsideOf(own, p), tabsIndent, p);
    ChildrenSize(own, tabsIndent, p);
    HeaderTreeIff(HeadOf(p(lines[0]).value, tabsIndent), InsideItems(own, tabsIndent, p),
                  ItemsOf(AfterOwn(lines), EndIndent(own, tabsIndent, p), p),
                  ChildrenOf(own, p), SourceTree(AfterOwn(lines), p));
  }

  lemma NodeTree(head: Item, rest: seq<Item>)
    requires head.Head?
    ensures var n := DeepItems(rest, head.depth + 4);
            MarkdownTree([head] + rest) == [Node(head.title, MarkdownTree(rest[..n]))] + MarkdownTree(rest[n..])
  {
    assert ([head] + rest)[1..] == rest;
  }

  lemma PlainTree(line: string, rest: seq<Item>)
    ensures MarkdownTree(PlainItems(line) + rest) ==
            (if IsBlank(line) then [] else [Leaf(LStrip(line))]) + MarkdownTree(rest)
  {
    if IsBlank(line) {
      assert PlainItems(line) + rest == rest;
    } else {
      assert (PlainItems(line) + rest)[1..] == rest;
    }
  }

  /**
   The conversion preserves which visible lines belong to which tab, through any number of
   wrappers, nested tabs and code tabs, exactly when every tab holds together.
   */
  lemma {:induction false} TreePreservedIffTidy(lines: seq<string>, tabsIndent: string, p: Patterns)
    requires IsExact(p)
    ensures TreePreserved(lines, tabsIndent, p) <==> Tidy(lines, tabsIndent, p)
    decreases |lines|
  {
    if lines != [] {
      match p(lines[0]) {
        case None =>
          TreePreservedIffTidy(lines[1..], tabsIndent, p);
          var front := if IsBlank(lines[0]) then [] else [Leaf(LStrip(lines[0]))];
          PlainTree(lines[0], ItemsOf(lines[1..], tabsIndent, p));
          FrontCancels(front, MarkdownTree(ItemsOf(lines[1..], tabsIndent, p)), SourceTree(lines[1..], p));
        case Some(Wrapper(indent)) =>
          TreePreservedIffTidy(AfterBlank(lines[1..]), indent, p);
        case Some(tab) =>
          var own := OwnOf(lines);
          TabPreservedIff(lines, tabsIndent, p);
          ChildrenPreservedIff(own, tabsIndent, p);
          TreePreservedIffTidy(InsideOf(own, p), tabsIndent, p);
          TreePreservedIffTidy(AfterOwn(lines), EndIndent(own, tabsIndent, p), p);
      }
    }
  }

  // ---------------------------------------------------------------------------
  // The items are what the pass writes
  // ---------------------------------------------------------------------------

  /** Depth and text of every visible line. */
  function Shown(lines: seq<string>): seq<(nat, string)> {
    if lines == [] then []
    else (if IsBlank(lines[0]) then [] else [(IndentOf(lines[0]), LStrip(lines[0]))]) + Shown(lines[1..])
  }

  function ShownItem(item: Item): seq<(nat, string)> {
    match item
    case Plain(depth, text) => [(depth, text)]
    case Head(depth, title) => [(depth, "=== \"" + title + "\"")]
    case Code(depth, body) => Shown(Fenced(seq(depth, _ => ' '), "python", body))
  }

  function ShownItems(items: seq<Item>): seq<(nat, string)> {
    if items == [] then [] else ShownItem(items[0]) + ShownItems(items[1..])
  }

  lemma {:induction false} ShownAppend(a: seq<string>, b: seq<string>)
    ensures Shown(a + b) == Shown(a) + Shown(b)
  {
    if a == [] {
      assert a + b == b;
    } else {
      assert (a + b)[1..] == a[1..] + b;
      ShownAppend(a[1..], b);
    }
  }

  lemma ShownLine(indent: string, text: string)
    requires AllSpaces(indent) && text != "" && !IsSpace(text[0])
    ensures Shown([indent + text]) == [(|indent|, text)]
  {
    LStripOfIndented(indent, text);
    assert [indent + text][1..] == [];
  }

  /** Which white space an indent consists of does not matter for what is shown. */
  lemma {:induction false} ShownIndented(one: string, other: string, body: seq<string>)
    requires AllSpaces(one) && AllSpaces(other) && |one| == |other|
    ensures Shown(Indented(one, body)) == Shown(Indented(other, body))
  {
    if body != [] {
      ShownIndented(one, other, body[1..]);
      assert Indented(one, body)[1..] == Indented(one, body[1..]) &&
             Indented(other, body)[1..] == Indented(other, body[1..]);
      LStripOfSpaced(one, body[0]);
      LStripOfSpaced(other, body[0]);
    }
  }

  lemma ShownFenced(one: string, other: string, body: seq<string>)
    requires AllSpaces(one) && AllSpaces(other) && |one| == |other|
    ensures Shown(Fenced(one, "python", body)) == Shown(Fenced(other, "python", body))
  {
    ShownParts(one, body);
    ShownParts(other, body);
    ShownIndented(one, other, body);
  }

  lemma ShownParts(indent: string, body: seq<string>)
    requires AllSpaces(indent)
    ensures Shown(Fenced(indent, "python", body)) ==
            [(|indent|, "```python")] + Shown(Indented(indent, body)) + [(|indent|, "```")]
  {
    var open, inside, close := [indent + "```" + "python"], Indented(indent, body), [indent + "```"];
    ShownAppend(open + inside, close);
    ShownAppend(open, inside);
    assert indent + "```" + "python" == indent + "```python";
    ShownLine(indent, "```python");
    ShownLine(indent, "```");
  }

  lemma ShownCons(item: Item, rest: seq<Item>)
    ensures ShownItems([item] + rest) == ShownItem(item) + ShownItems(rest)
  {
    assert ([item] + rest)[1..] == rest;
  }

  lemma ShownHead(tab: TabLine, tabsIndent: string)
    requires !tab.Wrapper? && AllSpaces(tab.indent)
    ensures Shown([HeaderOf(tab, tabsIndent)]) == ShownItem(HeadOf(tab, tabsIndent))
  {
    var indent, text := OutIndent(tab.indent, tabsIndent), "=== \"" + tab.title + "\"";
    assert HeaderOf(tab, tabsIndent) == indent + text && text[0] == '=';
    ShownLine(indent, text);
  }

  lemma ShownCode(lines: seq<string>, tab: TabLine, tabsIndent: string)
    requires lines != [] && AllSpaces(tab.indent)
    ensures Shown(BlockOf(lines, tab, tabsIndent)) == ShownItem(CodeOf(lines, tab, tabsIndent))
  {
    var indent := OutIndent(tab.indent, tabsIndent) + "    ";
    ShownFenced(indent, seq(|indent|, _ => ' '), Trimmed(Unindented(BodyOf(lines, tab), |tab.indent| + 4)));
  }

  lemma SpacesInFront(line: string)
    ensures AllSpaces(line[..IndentOf(line)])
  {
    LStripIsSuffix(line);
  }

  lemma BlankIsNotShown(lines: seq<string>)
    ensures Shown(AfterBlank(lines)) == Shown(lines)
  {
  }

  /** The visible lines of the result are those of the items, depth for depth and text for text. */
  lemma {:induction false} ItemsAreShown(lines: seq<string>, tabsIndent: string, p: Patterns)
    requires IsExact(p)
    ensures Shown(Convert(lines, tabsIndent, p)) == ShownItems(ItemsOf(lines, tabsIndent, p))
    decreases |lines|
  {
    if lines != [] {
      SpacesInFront(lines[0]);
      match p(lines[0]) {
        case None =>
          ItemsAreShown(lines[1..], tabsIndent, p);
          PlainIsShown(lines[0], Convert(lines[1..], tabsIndent, p), ItemsOf(lines[1..], tabsIndent, p));
        case Some(Wrapper(indent)) =>
          ItemsAreShown(AfterBlank(lines[1..]), indent, p);
        case Some(CodeTab(indent, title)) =>
          CodeTabItemsAreShown(lines, CodeTab(indent, title), tabsIndent, p);
        case Some(Tab(indent, title)) =>
          var tab := Tab(indent, title);
          ItemsAreShown(lines[1..], tabsIndent, p);
          ShownHead(tab, tabsIndent);
          ShownAppend([HeaderOf(tab, tabsIndent)], Convert(lines[1..], tabsIndent, p));
          ShownCons(HeadOf(tab, tabsIndent), ItemsOf(lines[1..], tabsIndent, p));
      }
    }
  }

  lemma PlainIsShown(line: string, rest: seq<string>, items: seq<Item>)
    requires Shown(rest) == ShownItems(items)
    ensures Shown([line] + rest) == ShownItems(PlainItems(line) + items)
  {
    assert ([line] + rest)[1..] == rest;
    if IsBlank(line) {
      assert PlainItems(line) + items == items;
    } else {
      ShownCons(Plain(IndentOf(line), LStrip(line)), items);
    }
  }

  lemma CodeTabItemsAreShown(lines: seq<string>, tab: TabLine, tabsIndent: string, p: Patterns)
    requires IsExact(p) && lines != [] && p(lines[0]) == Some(tab) && tab.CodeTab?
    ensures Shown(Convert(lines, tabsIndent, p)) == ShownItems(ItemsOf(lines, tabsIndent, p))
    decreases |lines|, 0
  {
    var rest := AfterBlock(lines, tab);
    SpacesInFront(lines[0]);
    ItemsAreShown(rest, tabsIndent, p);
    ShownHead(tab, tabsIndent);
    ShownCode(lines, tab, tabsIndent);
    ThreePartsAreShown([HeaderOf(tab, tabsIndent)], BlockOf(lines, tab, tabsIndent), Convert(rest, tabsIndent, p),
                       HeadOf(tab, tabsIndent), CodeOf(lines, tab, tabsIndent), ItemsOf(rest, tabsIndent, p));
  }

  lemma ThreePartsAreShown(header: seq<string>, block: seq<string>, tail: seq<string>, head: Item, code: Item,
      items: seq<Item>)
    requires Shown(header) == ShownItem(head) && Shown(block) == ShownItem(code) && Shown(tail) == ShownItems(items)
    ensures Shown(header + block + tail) == ShownItems([head] + ([code] + items))
  {
    ShownAppend(header + block, tail);
    ShownAppend(header, block);
    ShownCons(code, items);
    ShownCons(head, [code] + items);
    Associate(Shown(header), Shown(block), Shown(tail));
  }

  lemma Associate<T>(a: seq<T>, b: seq<T>, c: seq<T>)
    ensures (a + b) + c == a + (b + c)
  {
  }
}
