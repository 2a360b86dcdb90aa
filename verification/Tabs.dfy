/** The pass that turns tab directives into Markdown tabs. What its patterns recognise is a parameter. */
module Tabs {
  import opened CodeBodies
  import opened Sequences
  import opened Text
  import opened Wrappers

  datatype TabLine =
    | Wrapper(indent: string)
    | CodeTab(indent: string, title: string)
    | Tab(indent: string, title: string)

  type Patterns = string -> Option<TabLine>

  /** The indent of a directive is the white space in front of it. */
  ghost predicate IsSound(p: Patterns) {
    forall line :: p(line).Some? ==> AllSpaces(p(line).value.indent)
  }

  /** What remains of an indent once that of the enclosing wrapper is taken off. */
  function OutIndent(indent: string, tabsIndent: string): string {
    if |tabsIndent| <= |indent| then indent[|tabsIndent|..] else ""
  }

  function HeaderOf(tab: TabLine, tabsIndent: string): string
    requires !tab.Wrapper?
  {
    OutIndent(tab.indent, tabsIndent) + "=== \"" + tab.title + "\""
  }

  function BodyOf(lines: seq<string>, tab: TabLine): (body: seq<string>)
    requires lines != []
    ensures forall i | 0 <= i < |body| :: InBody(body[i], |tab.indent| + 4)
  {
    BodyLines(AfterBlank(lines[1..]), |tab.indent| + 4)
  }

  function BlockOf(lines: seq<string>, tab: TabLine, tabsIndent: string): seq<string>
    requires lines != []
  {
    Fenced(OutIndent(tab.indent, tabsIndent) + "    ", "python",
           Trimmed(Unindented(BodyOf(lines, tab), |tab.indent| + 4)))
  }

  function AfterBlock(lines: seq<string>, tab: TabLine): (rest: seq<string>)
    requires lines != []
    ensures |rest| < |lines| && BodyOf(lines, tab) + rest == AfterBlank(lines[1..])
  {
    AfterBody(AfterBlank(lines[1..]), |tab.indent| + 4)
  }

  function Convert(lines: seq<string>, tabsIndent: string, p: Patterns): seq<string>
    decreases |lines|
  {
    if lines == [] then []
    else
      match p(lines[0])
      case None => [lines[0]] + Convert(lines[1..], tabsIndent, p)
      case Some(Wrapper(indent)) => Convert(AfterBlank(lines[1..]), indent, p)
      case Some(CodeTab(indent, title)) =>
        var tab := CodeTab(indent, title);
        [HeaderOf(tab, tabsIndent)] + BlockOf(lines, tab, tabsIndent) + Convert(AfterBlock(lines, tab), tabsIndent, p)
      case Some(Tab(indent, title)) => [HeaderOf(Tab(indent, title), tabsIndent)] + Convert(lines[1..], tabsIndent, p)
  }

  /** One entry of the change list for each directive the pass meets. */
  function Changes(lines: seq<string>, p: Patterns): nat
    decreases |lines|
  {
    if lines == [] then 0
    else
      match p(lines[0])
      case None => Changes(lines[1..], p)
      case Some(Wrapper(_)) => 1 + Changes(AfterBlank(lines[1..]), p)
      case Some(CodeTab(indent, title)) => 1 + Changes(AfterBlock(lines, CodeTab(indent, title)), p)
      case Some(Tab(_, _)) => 1 + Changes(lines[1..], p)
  }

  /** Past line `i` and a single blank line. */
  method SkipBlank(lines: seq<string>, i: nat) returns (j: nat)
    requires i < |lines|
    ensures i < j <= |lines| && lines[j..] == AfterBlank(lines[i..][1..])
  {
    j := i + 1;
    assert lines[i..][1..] == lines[j..];
    if j < |lines| && IsBlank(lines[j]) {
      assert lines[j..][0] == lines[j] && lines[j..][1..] == lines[j + 1..];
      j := j + 1;
    }
  }

  method ConvertCodeTab(lines: seq<string>, i: nat, tab: TabLine, tabsIndent: string)
    returns (block: seq<string>, next: nat)
    requires i < |lines|
    ensures i < next <= |lines|
    ensures block == BlockOf(lines[i..], tab, tabsIndent) && lines[next..] == AfterBlock(lines[i..], tab)
  {
    var j := SkipBlank(lines, i);
    var body, end := CollectBody(lines, j, |tab.indent| + 4);
    next := end;
    block := Fenced(OutIndent(tab.indent, tabsIndent) + "    ", "python", body);
  }

  /** A code tab, with the header in front of its block. */
  method ConvertCodeTabLine(lines: seq<string>, i: nat, tab: TabLine, tabsIndent: string, p: Patterns)
    returns (more: seq<string>, next: nat)
    requires i < |lines| && p(lines[i]) == Some(tab) && tab.CodeTab?
    ensures i < next <= |lines|
    ensures Convert(lines[i..], tabsIndent, p) == more + Convert(lines[next..], tabsIndent, p)
    ensures Changes(lines[i..], p) == 1 + Changes(lines[next..], p)
  {
    var block;
    block, next := ConvertCodeTab(lines, i, tab, tabsIndent);
    more := [HeaderOf(tab, tabsIndent)] + block;
  }

  /** One turn of the loop: what it appends, what it reports, and where it goes on. */
  method ConvertLine(lines: seq<string>, i: nat, tabsIndent: string, p: Patterns)
    returns (more: seq<string>, reports: seq<string>, nextIndent: string, next: nat)
    requires i < |lines|
    ensures i < next <= |lines|
    ensures Convert(lines[i..], tabsIndent, p) == more + Convert(lines[next..], nextIndent, p)
    ensures Changes(lines[i..], p) == |reports| + Changes(lines[next..], p)
  {
    assert lines[i..][0] == lines[i] && lines[i..][1..] == lines[i + 1..];
    more, reports, nextIndent, next := [], [], tabsIndent, i + 1;
    match p(lines[i]) {
      case None =>
        more := [lines[i]];
      case Some(Wrapper(indent)) =>
        nextIndent := indent;
        reports := ["removed: .. tabs::"];
        next := SkipBlank(lines, i);
      case Some(CodeTab(indent, title)) =>
        more, next := ConvertCodeTabLine(lines, i, CodeTab(indent, title), tabsIndent, p);
        reports := ["code-tab: " + title];
      case Some(Tab(indent, title)) =>
        more := [HeaderOf(Tab(indent, title), tabsIndent)];
        reports := ["tab: " + title];
    }
  }

  method ConvertTabs(lines: seq<string>, p: Patterns) returns (result: seq<string>, changes: seq<string>)
    ensures result == Convert(lines, "", p)
    ensures |changes| == Changes(lines, p)
  {
    result, changes := [], [];
    var i, tabsIndent := 0, "";
    while i < |lines|
      invariant 0 <= i <= |lines|
      invariant Convert(lines, "", p) == result + Convert(lines[i..], tabsIndent, p)
      invariant Changes(lines, p) == |changes| + Changes(lines[i..], p)
    {
      var more, reports;
      more, reports, tabsIndent, i := ConvertLine(lines, i, tabsIndent, p);
      Regroup(result, more, Convert(lines[i..], tabsIndent, p));
      result := result + more;
      changes := changes + reports;
    }
  }

  lemma Regroup(a: seq<string>, b: seq<string>, c: seq<string>)
    ensures a + (b + c) == (a + b) + c
  {
  }

  // ---------------------------------------------------------------------------
  // What the pass promises
  // ---------------------------------------------------------------------------

  /** No change is reported exactly for texts without a tab directive, and they come out unchanged. */
  lemma {:induction false} UnchangedIffNoTabs(lines: seq<string>, tabsIndent: string, p: Patterns)
    ensures Changes(lines, p) == 0 <==> forall i | 0 <= i < |lines| :: p(lines[i]).None?
    ensures Changes(lines, p) == 0 ==> Convert(lines, tabsIndent, p) == lines
  {
    if lines != [] && p(lines[0]).None? {
      UnchangedIffNoTabs(lines[1..], tabsIndent, p);
      assert [lines[0]] + lines[1..] == lines;
      assert forall i | 1 <= i < |lines| :: lines[i] == lines[1..][i - 1];
    }
  }

  function IsMarkup(p: Patterns): string -> bool {
    line => p(line).Some?
  }

  lemma MarkupDropped(lines: seq<string>, p: Patterns)
    requires lines != [] && p(lines[0]).Some?
    ensures Without(lines, IsMarkup(p)) == Without(lines[1..], IsMarkup(p))
  {
    assert IsMarkup(p)(lines[0]);
  }

  /** All lines but the directives that are converted, and one blank line behind some of them. */
  function Payload(lines: seq<string>, p: Patterns): seq<string>
    decreases |lines|
  {
    if lines == [] then []
    else
      match p(lines[0])
      case None => [lines[0]] + Payload(lines[1..], p)
      case Some(Wrapper(_)) => Payload(AfterBlank(lines[1..]), p)
      case Some(CodeTab(indent, title)) =>
        BodyOf(lines, CodeTab(indent, title)) + Payload(AfterBlock(lines, CodeTab(indent, title)), p)
      case Some(Tab(_, _)) => Payload(lines[1..], p)
  }

  /** All of the payload comes out in order, body lines that look like directives included. */
  lemma {:induction false} PayloadIsShown(lines: seq<string>, tabsIndent: string, p: Patterns)
    requires IsSound(p)
    ensures Subsequence(Visible(Payload(lines, p)), Visible(Convert(lines, tabsIndent, p)))
    decreases |lines|
  {
    if lines != [] {
      match p(lines[0]) {
        case None =>
          PayloadIsShown(lines[1..], tabsIndent, p);
          ShowsItself(Visible([lines[0]]));
          PartsAreShown([lines[0]], Payload(lines[1..], p), [lines[0]], Convert(lines[1..], tabsIndent, p));
        case Some(Wrapper(indent)) =>
          PayloadIsShown(AfterBlank(lines[1..]), indent, p);
        case Some(CodeTab(indent, title)) =>
          var tab := CodeTab(indent, title);
          PayloadIsShown(AfterBlock(lines, tab), tabsIndent, p);
          CodeTabShowsBody(lines, tab, tabsIndent);
          HeadedPartsAreShown(BodyOf(lines, tab), Payload(AfterBlock(lines, tab), p), [HeaderOf(tab, tabsIndent)],
                              BlockOf(lines, tab, tabsIndent), Convert(AfterBlock(lines, tab), tabsIndent, p));
        case Some(Tab(indent, title)) =>
          PayloadIsShown(lines[1..], tabsIndent, p);
          MadeLinesInFront(Visible(Payload(lines[1..], p)), [HeaderOf(Tab(indent, title), tabsIndent)],
                           Convert(lines[1..], tabsIndent, p));
      }
    }
  }

  lemma CodeTabShowsBody(lines: seq<string>, tab: TabLine, tabsIndent: string)
    requires lines != [] && AllSpaces(tab.indent)
    ensures Subsequence(Visible(BodyOf(lines, tab)), Visible(BlockOf(lines, tab, tabsIndent)))
  {
    var indent := OutIndent(tab.indent, tabsIndent) + "    ";
    assert AllSpaces(indent);
    FencedBodyIsShown(BodyOf(lines, tab), |tab.indent| + 4, indent, "python");
  }

  lemma HeadedPartsAreShown(a: seq<string>, b: seq<string>, header: seq<string>, shownA: seq<string>,
      shownB: seq<string>)
    requires Subsequence(Visible(a), Visible(shownA)) && Subsequence(Visible(b), Visible(shownB))
    ensures Subsequence(Visible(a + b), Visible(header + shownA + shownB))
  {
    PartsAreShown(a, b, shownA, shownB);
    MadeLinesInFront(Visible(a + b), header, shownA + shownB);
    Regroup(header, shownA, shownB);
  }

  /** What the payload leaves out besides blank lines are directives. */
  lemma {:induction false} PayloadHasTheRest(lines: seq<string>, p: Patterns)
    ensures Subsequence(Visible(Without(lines, IsMarkup(p))), Visible(Payload(lines, p)))
    decreases |lines|
  {
    if lines != [] {
      if p(lines[0]).Some? {
        MarkupDropped(lines, p);
      }
      match p(lines[0]) {
        case None =>
          PayloadHasTheRest(lines[1..], p);
          assert !IsMarkup(p)(lines[0]);
          LineInFront(lines[0], Without(lines[1..], IsMarkup(p)), Payload(lines[1..], p));
        case Some(Wrapper(_)) =>
          PayloadHasTheRest(AfterBlank(lines[1..]), p);
          BlankShowsNothing(lines[1..], IsMarkup(p));
        case Some(CodeTab(indent, title)) =>
          var tab := CodeTab(indent, title);
          PayloadHasTheRest(AfterBlock(lines, tab), p);
          BlankShowsNothing(lines[1..], IsMarkup(p));
          WithoutIsPart(BodyOf(lines, tab), IsMarkup(p));
          PartsShowAll(BodyOf(lines, tab), AfterBlock(lines, tab), IsMarkup(p), BodyOf(lines, tab),
                       Payload(AfterBlock(lines, tab), p));
        case Some(Tab(_, _)) =>
          PayloadHasTheRest(lines[1..], p);
      }
    }
  }

  /** Every visible line that is no tab directive comes out with its text, in order. */
  lemma NoTextIsLost(lines: seq<string>, tabsIndent: string, p: Patterns)
    requires IsSound(p)
    ensures Subsequence(Visible(Without(lines, IsMarkup(p))), Visible(Convert(lines, tabsIndent, p)))
  {
    var all, payload := Without(lines, IsMarkup(p)), Payload(lines, p);
    PayloadHasTheRest(lines, p);
    PayloadIsShown(lines, tabsIndent, p);
    SubsequenceTransitive(Visible(all), Visible(payload), Visible(Convert(lines, tabsIndent, p)));
  }

  // ---------------------------------------------------------------------------
  // Which lines belong to a plain tab
  // ---------------------------------------------------------------------------

  /** How many lines, blank ones included, stay at least this deep. */
  function Owned(lines: seq<string>, depth: nat): (n: nat)
    ensures n <= |lines|
    ensures forall i | 0 <= i < n :: IsBlank(lines[i]) || IndentOf(lines[i]) >= depth
    ensures n < |lines| ==> !IsBlank(lines[n]) && IndentOf(lines[n]) < depth
  {
    if lines == [] || (!IsBlank(lines[0]) && IndentOf(lines[0]) < depth) then 0 else 1 + Owned(lines[1..], depth)
  }

  /** In the source a tab owns the deeper lines, in Markdown those that are four deeper than its header. */
  function DepthInSource(tab: TabLine): nat {
    |tab.indent| + 1
  }

  function DepthInMarkdown(tab: TabLine, tabsIndent: string): nat {
    |OutIndent(tab.indent, tabsIndent)| + 4
  }

  /** With properly indented lines only the line that ends the tab can go wrong: it must still be too shallow. */
  lemma TabOwnsTheSameIff(rest: seq<string>, tab: TabLine, tabsIndent: string)
    requires |tabsIndent| <= |tab.indent|
    requires forall i | 0 <= i < Owned(rest, DepthInSource(tab)) ::
             IsBlank(rest[i]) || IndentOf(rest[i]) >= |tab.indent| + 4
    ensures var n := Owned(rest, DepthInSource(tab));
            Owned(rest, DepthInMarkdown(tab, tabsIndent)) == n <==>
              n == |rest| || IndentOf(rest[n]) + |tabsIndent| < |tab.indent| + 4
  {
    var n, m := Owned(rest, DepthInSource(tab)), Owned(rest, DepthInMarkdown(tab, tabsIndent));
    assert m < |rest| ==> !IsBlank(rest[m]) && IndentOf(rest[m]) < DepthInMarkdown(tab, tabsIndent);
  }

  /** A line of this depth. */
  function LineAt(depth: nat): (line: string)
    ensures !IsBlank(line) && IndentOf(line) == depth
  {
    var spaces := seq(depth, _ => ' ');
    LStripOfIndented(spaces, "x");
    spaces + "x"
  }

  /** Whatever lines follow, the tab owns the same ones, if and only if its wrapper stands exactly three deep. */
  lemma TabAlwaysOwnsTheSameIff(tab: TabLine, tabsIndent: string)
    requires |tabsIndent| <= |tab.indent|
    ensures (forall rest :: Owned(rest, DepthInMarkdown(tab, tabsIndent)) == Owned(rest, DepthInSource(tab))) <==>
            |tabsIndent| == 3
  {
    var source, markdown := DepthInSource(tab), DepthInMarkdown(tab, tabsIndent);
    if source != markdown {
      var rest := [LineAt(if source < markdown then source else markdown)];
      assert rest[1..] == [];
      assert Owned(rest, markdown) != Owned(rest, source);
    }
  }

  /**
   The usual layout, eight deep or more: the paragraph behind the tabs, as deep as the wrapper,
   becomes part of the last tab.
   */
  lemma ParagraphBehindTabsIsSwallowed(tab: TabLine, tabsIndent: string, body: string, blank: string, after: string)
    requires |tab.indent| == |tabsIndent| + 4 && |tabsIndent| >= 8
    requires !IsBlank(body) && IndentOf(body) == |tab.indent| + 4 && IsBlank(blank)
    requires !IsBlank(after) && IndentOf(after) == |tabsIndent|
    ensures Owned([body, blank, after], DepthInSource(tab)) == 2
    ensures Owned([body, blank, after], DepthInMarkdown(tab, tabsIndent)) == 3
  {
    var lines := [body, blank, after];
    assert lines[1..] == [blank, after] && [blank, after][1..] == [after] && [after][1..] == [];
    forall depth: nat | |tabsIndent| < depth <= |tab.indent| + 4
      ensures Owned(lines, depth) == 2
    {
      assert Owned([after], depth) == 0 && Owned([blank, after], depth) == 1;
    }
    assert Owned([after], 8) == 1 && Owned([blank, after], 8) == 2;
  }
}
