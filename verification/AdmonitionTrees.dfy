/**
 The nesting of admonitions, read from a reStructuredText outline and from a Markdown one,
 and exactly when the conversion preserves it.
 */
module AdmonitionTrees {
  import opened Wrappers
  import opened Admonitions

  datatype Block = Leaf(line: Line) | Admonition(header: HeaderText, body: seq<Block>)

  function OwnLeaf(line: Line): seq<Block>
    requires IsDirectiveLine(line)
  {
    if line.content.Inline? || line.content.VersionText? then [Leaf(Line(0, line.content.body))] else []
  }

  /** The lines under a directive, before they are moved, and the lines after those. */
  function RunOf(lines: seq<Line>): (run: seq<Line>)
    requires StartsDirective(lines)
    ensures |run| < |lines|
  {
    lines[1..][..DeepRun(lines[1..], lines[0].indent + 1)]
  }

  function AfterRun(lines: seq<Line>): (after: seq<Line>)
    requires StartsDirective(lines)
    ensures |after| < |lines|
  {
    lines[1..][DeepRun(lines[1..], lines[0].indent + 1)..]
  }

  /** reStructuredText: a directive owns the blank or deeper lines that follow it. */
  function SourceTree(lines: seq<Line>): seq<Block>
    decreases |lines|
  {
    if lines == [] then []
    else if !StartsDirective(lines) then [Leaf(Bare(lines[0]))] + SourceTree(lines[1..])
    else
      [Admonition(HeaderOf(lines[0].content), OwnLeaf(lines[0]) + SourceTree(RunOf(lines)))] +
      SourceTree(AfterRun(lines))
  }

  predicate StartsHeader(lines: seq<Line>) {
    lines != [] && lines[0].Line? && lines[0].content.Header?
  }

  function HeaderRun(lines: seq<Line>): (run: seq<Line>)
    requires StartsHeader(lines)
    ensures |run| < |lines|
  {
    lines[1..][..DeepRun(lines[1..], lines[0].indent + 4)]
  }

  function AfterHeader(lines: seq<Line>): (after: seq<Line>)
    requires StartsHeader(lines)
    ensures |after| < |lines|
    ensures |HeaderRun(lines)| + |after| + 1 == |lines|
  {
    lines[1..][DeepRun(lines[1..], lines[0].indent + 4)..]
  }

  /** Markdown: a header owns the lines that follow it and are blank or at least four deeper. */
  function MarkdownTree(lines: seq<Line>): seq<Block>
    decreases |lines|
  {
    if lines == [] then []
    else if !StartsHeader(lines) then [Leaf(Bare(lines[0]))] + MarkdownTree(lines[1..])
    else [Admonition(lines[0].content.header, MarkdownTree(HeaderRun(lines)))] + MarkdownTree(AfterHeader(lines))
  }

  /** A source line: no Markdown header, neither as a line nor as the text of a directive. */
  predicate IsSourceLine(line: Line) {
    line.Line? ==>
      && !line.content.Header?
      && (line.content.Inline? || line.content.VersionText? ==> !line.content.body.Header?)
  }

  predicate IsSource(lines: seq<Line>) {
    forall i | 0 <= i < |lines| :: IsSourceLine(lines[i])
  }

  /** Every directive of the inline form is followed by lines four deeper, or by none that are deeper at all. */
  predicate Tidy(lines: seq<Line>) {
    lines != [] ==>
      && Tidy(lines[1..])
      && (StartsDirective(lines) && lines[0].content.Inline? ==> AllDeep(RunOf(lines), lines[0].indent + 4))
  }

  /** A directive's lines, cut at the first one that is not deeper. */
  lemma RunParts(lines: seq<Line>)
    requires StartsDirective(lines)
    ensures RunOf(lines) + AfterRun(lines) == lines[1..]
    ensures AllDeep(RunOf(lines), lines[0].indent + 1)
    ensures Stops(AfterRun(lines), lines[0].indent + 1)
    ensures CutsAt(RunOf(lines), AfterRun(lines))
    ensures !lines[0].content.Inline? ==>
            AfterRun(lines) == AfterBody(lines) && BodyOf(lines) == Normalised(RunOf(lines), lines[0].indent)
  {
  }

  // ---------------------------------------------------------------------------
  // Depth
  // ---------------------------------------------------------------------------

  /** The following lines stop a run of this depth. */
  predicate Stops(after: seq<Line>, depth: nat) {
    after == [] || !IsDeep(after[0], depth)
  }

  lemma {:induction false} RunStops(lines: seq<Line>, after: seq<Line>, depth: nat)
    requires Stops(after, depth)
    ensures DeepRun(lines + after, depth) == DeepRun(lines, depth)
  {
    if lines == [] {
      assert lines + after == after;
    } else {
      assert (lines + after)[1..] == lines[1..] + after;
      RunStops(lines[1..], after, depth);
    }
  }

  lemma {:induction false} RunIsWhole(lines: seq<Line>, depth: nat)
    ensures DeepRun(lines, depth) == |lines| <==> AllDeep(lines, depth)
  {
    if lines != [] {
      RunIsWhole(lines[1..], depth);
      assert AllDeep(lines, depth) <==> IsDeep(lines[0], depth) && AllDeep(lines[1..], depth) by {
        assert lines == [lines[0]] + lines[1..];
      }
    }
  }

  /** A run that ends inside a text is not extended by what follows. */
  lemma {:induction false} RunEndsInside(lines: seq<Line>, after: seq<Line>, depth: nat)
    requires !AllDeep(lines, depth)
    ensures DeepRun(lines + after, depth) < |lines|
  {
    assert (lines + after)[1..] == lines[1..] + after;
    if IsDeep(lines[0], depth) {
      assert !AllDeep(lines[1..], depth) by { assert lines == [lines[0]] + lines[1..]; }
      RunEndsInside(lines[1..], after, depth);
    }
  }

  lemma DeepAppend(a: seq<Line>, b: seq<Line>, depth: nat)
    ensures AllDeep(a + b, depth) <==> AllDeep(a, depth) && AllDeep(b, depth)
  {
    if AllDeep(a + b, depth) {
      assert forall i | 0 <= i < |a| :: (a + b)[i] == a[i];
      assert forall i | 0 <= i < |b| :: (a + b)[|a| + i] == b[i];
    }
  }

  lemma OpenedDeep(head: Line, depth: nat)
    requires IsDirectiveLine(head)
    ensures AllDeep(Opened(head), depth) <==> head.indent >= depth
  {
    assert Opened(head)[0].indent == head.indent;
  }

  lemma BodyIsDeep(lines: seq<Line>)
    requires StartsDirective(lines)
    ensures AllDeep(BodyOf(lines), lines[0].indent + 4)
    ensures AllDeep(lines[1..][..BodyLength(lines)], lines[0].indent + 1)
  {
    NormalisingIsIdempotent(lines[1..][..BodyLength(lines)], lines[0].indent);
  }

  /** Conversion moves no line across a depth that the text as a whole reaches. */
  lemma {:induction false} ConversionKeepsDepth(lines: seq<Line>, depth: nat)
    ensures AllDeep(Convert(lines), depth) <==> AllDeep(lines, depth)
    decreases |lines|
  {
    if lines == [] {
    } else if !StartsDirective(lines) {
      ConversionKeepsDepth(lines[1..], depth);
      DeepAppend([lines[0]], lines[1..], depth);
      DeepAppend([lines[0]], Convert(lines[1..]), depth);
      assert lines == [lines[0]] + lines[1..];
    } else {
      var head, rest, n := lines[0], lines[1..], BodyLength(lines);
      BodyIsDeep(lines);
      ConversionKeepsDepth(BodyOf(lines), depth);
      ConversionKeepsDepth(AfterBody(lines), depth);
      OpenedDeep(head, depth);
      DeepAppend(Opened(head) + Convert(BodyOf(lines)), Convert(AfterBody(lines)), depth);
      DeepAppend(Opened(head), Convert(BodyOf(lines)), depth);
      DeepAppend([head], rest, depth);
      DeepAppend(rest[..n], rest[n..], depth);
      assert lines == [head] + rest && rest == rest[..n] + rest[n..];
    }
  }

  lemma ConversionKeepsHead(lines: seq<Line>)
    requires lines != []
    ensures Convert(lines) != [] && (Convert(lines)[0].Line? <==> lines[0].Line?)
    ensures lines[0].Line? ==> Convert(lines)[0].indent == lines[0].indent
  {
  }

  lemma ConversionStops(after: seq<Line>, depth: nat)
    requires Stops(after, depth)
    ensures Stops(Convert(after), depth)
  {
    if after != [] { ConversionKeepsHead(after); }
  }

  // ---------------------------------------------------------------------------
  // Cutting a text at a line that nothing before it is shallower than
  // ---------------------------------------------------------------------------

  predicate CutsAt(lines: seq<Line>, after: seq<Line>) {
    after == [] || (after[0].Line? && AllDeep(lines, after[0].indent))
  }

  lemma CutStopsRuns(lines: seq<Line>, after: seq<Line>, depth: nat)
    requires CutsAt(lines, after) && lines != [] && lines[0].Line? && depth > lines[0].indent
    ensures Stops(after, depth)
  {
  }

  lemma CutShrinks(lines: seq<Line>, after: seq<Line>, k: nat)
    requires CutsAt(lines, after) && k <= |lines|
    ensures CutsAt(lines[k..], after)
  {
  }

  lemma HeadBeforeCut(lines: seq<Line>, after: seq<Line>)
    requires CutsAt(lines, after) && lines != []
    ensures (lines + after)[0] == lines[0] && (lines + after)[1..] == lines[1..] + after && CutsAt(lines[1..], after)
  {
  }

  lemma RunBeforeCut(lines: seq<Line>, after: seq<Line>)
    requires CutsAt(lines, after) && StartsDirective(lines)
    ensures StartsDirective(lines + after) && RunOf(lines + after) == RunOf(lines)
    ensures AfterRun(lines + after) == AfterRun(lines) + after && CutsAt(AfterRun(lines), after)
  {
    var rest, depth := lines[1..], lines[0].indent + 1;
    HeadBeforeCut(lines, after);
    CutStopsRuns(lines, after, depth);
    RunStops(rest, after, depth);
    CutShrinks(rest, after, DeepRun(rest, depth));
  }

  lemma DirectiveBeforeCut(lines: seq<Line>, after: seq<Line>)
    requires CutsAt(lines, after) && StartsDirective(lines)
    ensures StartsDirective(lines + after) && BodyOf(lines + after) == BodyOf(lines)
    ensures AfterBody(lines + after) == AfterBody(lines) + after && CutsAt(AfterBody(lines), after)
  {
    HeadBeforeCut(lines, after);
    if lines[0].content.Inline? {
      NothingTaken(lines);
      NothingTaken(lines + after);
    } else {
      RunBeforeCut(lines, after);
      RunParts(lines);
      RunParts(lines + after);
    }
  }

  lemma {:induction false} ConversionSplits(lines: seq<Line>, after: seq<Line>)
    requires CutsAt(lines, after)
    ensures Convert(lines + after) == Convert(lines) + Convert(after)
    decreases |lines|
  {
    if lines == [] {
      assert lines + after == after;
    } else {
      HeadBeforeCut(lines, after);
      if !StartsDirective(lines) {
        ConversionSplits(lines[1..], after);
        assert [lines[0]] + (Convert(lines[1..]) + Convert(after)) == [lines[0]] + Convert(lines[1..]) + Convert(after);
      } else {
        DirectiveBeforeCut(lines, after);
        ConversionSplits(AfterBody(lines), after);
        Regroup(Opened(lines[0]) + Convert(BodyOf(lines)), Convert(AfterBody(lines)), Convert(after));
      }
    }
  }

  lemma {:induction false} TidySplits(lines: seq<Line>, after: seq<Line>)
    requires CutsAt(lines, after)
    ensures Tidy(lines + after) <==> Tidy(lines) && Tidy(after)
    decreases |lines|
  {
    if lines == [] {
      assert lines + after == after;
    } else {
      HeadBeforeCut(lines, after);
      TidySplits(lines[1..], after);
      if StartsDirective(lines) {
        RunBeforeCut(lines, after);
      }
    }
  }

  // ---------------------------------------------------------------------------
  // Moving a text sideways
  // ---------------------------------------------------------------------------

  lemma MovedTail(lines: seq<Line>, base: nat, target: nat, k: nat)
    requires k <= |lines|
    ensures ReindentAll(lines, base, target)[k..] == ReindentAll(lines[k..], base, target)
    ensures ReindentAll(lines, base, target)[..k] == ReindentAll(lines[..k], base, target)
  {
  }

  lemma {:induction false} MovedRun(lines: seq<Line>, base: nat, target: nat, depth: nat)
    requires AllDeep(lines, base) && depth >= base
    ensures DeepRun(ReindentAll(lines, base, target), target + depth - base) == DeepRun(lines, depth)
  {
    if lines != [] {
      var moved := ReindentAll(lines, base, target);
      MovedTail(lines, base, target, 1);
      assert IsDeep(lines[0], base);
      if IsDeep(lines[0], depth) {
        MovedRun(lines[1..], base, target, depth);
      }
    }
  }

  lemma MovedDeep(lines: seq<Line>, base: nat, target: nat, depth: nat)
    requires AllDeep(lines, base) && depth >= base
    ensures AllDeep(ReindentAll(lines, base, target), target + depth - base) <==> AllDeep(lines, depth)
  {
    var moved := ReindentAll(lines, base, target);
    forall i | 0 <= i < |lines|
      ensures IsDeep(moved[i], target + depth - base) <==> IsDeep(lines[i], depth)
    {
      assert IsDeep(lines[i], base);
    }
  }

  lemma MovedHead(lines: seq<Line>, base: nat, target: nat)
    requires AllDeep(lines, base) && lines != []
    ensures var moved := ReindentAll(lines, base, target);
            && moved[1..] == ReindentAll(lines[1..], base, target)
            && Bare(moved[0]) == Bare(lines[0]) && (StartsDirective(moved) <==> StartsDirective(lines))
            && (lines[0].Line? ==>
                lines[0].indent >= base && moved[0] == Line(target + lines[0].indent - base, lines[0].content))
            && AllDeep(lines[1..], base)
  {
    MovedTail(lines, base, target, 1);
    assert IsDeep(lines[0], base);
  }

  lemma MovedParts(lines: seq<Line>, base: nat, target: nat)
    requires AllDeep(lines, base) && StartsDirective(lines)
    ensures var moved := ReindentAll(lines, base, target);
            && StartsDirective(moved)
            && RunOf(moved) == ReindentAll(RunOf(lines), base, target) && AllDeep(RunOf(lines), base)
            && AfterRun(moved) == ReindentAll(AfterRun(lines), base, target) && AllDeep(AfterRun(lines), base)
  {
    var rest, depth := lines[1..], lines[0].indent + 1;
    MovedHead(lines, base, target);
    MovedRun(rest, base, target, depth);
    MovedTail(rest, base, target, DeepRun(rest, depth));
  }

  lemma {:induction false} MovedTree(lines: seq<Line>, base: nat, target: nat)
    requires AllDeep(lines, base)
    ensures SourceTree(ReindentAll(lines, base, target)) == SourceTree(lines)
    decreases |lines|
  {
    if lines != [] {
      MovedHead(lines, base, target);
      if !StartsDirective(lines) {
        MovedTree(lines[1..], base, target);
      } else {
        MovedParts(lines, base, target);
        MovedTree(RunOf(lines), base, target);
        MovedTree(AfterRun(lines), base, target);
      }
    }
  }

  lemma {:induction false} MovedTidy(lines: seq<Line>, base: nat, target: nat)
    requires AllDeep(lines, base)
    ensures Tidy(ReindentAll(lines, base, target)) <==> Tidy(lines)
    decreases |lines|
  {
    if lines != [] {
      MovedHead(lines, base, target);
      MovedTidy(lines[1..], base, target);
      if StartsDirective(lines) {
        MovedParts(lines, base, target);
        MovedDeep(RunOf(lines), base, target, lines[0].indent + 4);
      }
    }
  }

  lemma BodyIsTheSame(lines: seq<Line>)
    requires StartsDirective(lines) && !lines[0].content.Inline?
    ensures SourceTree(BodyOf(lines)) == SourceTree(RunOf(lines))
    ensures Tidy(BodyOf(lines)) <==> Tidy(RunOf(lines))
    ensures AllDeep(BodyOf(lines), lines[0].indent + 4)
  {
    var body := RunOf(lines);
    RunParts(lines);
    NormalisingIsIdempotent(body, lines[0].indent);
    if BaseIndent(body).Some? {
      MovedTree(body, BaseIndent(body).value, lines[0].indent + 4);
      MovedTidy(body, BaseIndent(body).value, lines[0].indent + 4);
    }
  }

  lemma PartsAreSource(lines: seq<Line>)
    requires StartsDirective(lines) && IsSource(lines)
    ensures IsSource(RunOf(lines)) && IsSource(AfterRun(lines)) && IsSourceLine(lines[0])
    ensures !lines[0].content.Inline? ==> IsSource(BodyOf(lines))
  {
    var n := |RunOf(lines)|;
    assert forall i | 0 <= i < n :: RunOf(lines)[i] == lines[i + 1];
    assert forall i | 0 <= i < |AfterRun(lines)| :: AfterRun(lines)[i] == lines[n + 1 + i];
    if !lines[0].content.Inline? {
      RunParts(lines);
      NormalisingKeepsShape(RunOf(lines), lines[0].indent);
      forall i | 0 <= i < n
        ensures IsSourceLine(BodyOf(lines)[i])
      {
        assert IsSourceLine(RunOf(lines)[i]);
      }
    }
  }

  // ---------------------------------------------------------------------------
  // Sizes
  // ---------------------------------------------------------------------------

  function Size(blocks: seq<Block>): nat {
    if blocks == [] then 0
    else (if blocks[0].Leaf? then 1 else 1 + Size(blocks[0].body)) + Size(blocks[1..])
  }

  lemma {:induction false} SizeAppend(a: seq<Block>, b: seq<Block>)
    ensures Size(a + b) == Size(a) + Size(b)
    decreases |a|
  {
    if a == [] {
      assert a + b == b;
    } else {
      assert (a + b)[1..] == a[1..] + b;
      SizeAppend(a[1..], b);
    }
  }

  lemma SizeCons(block: Block, rest: seq<Block>)
    ensures Size([block] + rest) == (if block.Leaf? then 1 else 1 + Size(block.body)) + Size(rest)
  {
    assert ([block] + rest)[1..] == rest;
  }

  lemma {:induction false} MarkdownSize(lines: seq<Line>)
    ensures Size(MarkdownTree(lines)) == |lines|
    decreases |lines|
  {
    if lines == [] {
    } else if !StartsHeader(lines) {
      MarkdownSize(lines[1..]);
      SizeCons(Leaf(Bare(lines[0])), MarkdownTree(lines[1..]));
    } else {
      MarkdownSize(HeaderRun(lines));
      MarkdownSize(AfterHeader(lines));
      SizeCons(Admonition(lines[0].content.header, MarkdownTree(HeaderRun(lines))), MarkdownTree(AfterHeader(lines)));
    }
  }

  lemma OwnLeafSize(head: Line, body: seq<Block>)
    requires IsDirectiveLine(head)
    ensures Size(OwnLeaf(head) + body) == |OwnText(head)| + Size(body)
  {
    if OwnLeaf(head) != [] {
      SizeCons(OwnLeaf(head)[0], body);
    } else {
      assert OwnLeaf(head) + body == body;
    }
  }

  lemma {:induction false} SourceSize(lines: seq<Line>)
    ensures Size(SourceTree(lines)) == |EmittedAll(lines)|
    decreases |lines|
  {
    if lines == [] {
    } else if !StartsDirective(lines) {
      SourceSize(lines[1..]);
      SizeCons(Leaf(Bare(lines[0])), SourceTree(lines[1..]));
    } else {
      var head, run, after := lines[0], RunOf(lines), AfterRun(lines);
      SourceSize(run);
      SourceSize(after);
      RunParts(lines);
      EmittedAppend(run, after);
      OwnLeafSize(head, SourceTree(run));
      SizeCons(Admonition(HeaderOf(head.content), OwnLeaf(head) + SourceTree(run)), SourceTree(after));
      assert |Emitted(head)| == 1 + |OwnText(head)|;
    }
  }

  lemma {:induction false} BareLength(lines: seq<Line>)
    ensures |BareAll(lines)| == |lines|
  {
    if lines != [] { BareLength(lines[1..]); }
  }

  lemma ConvertedSize(lines: seq<Line>)
    ensures Size(SourceTree(lines)) == |Convert(lines)|
  {
    SourceSize(lines);
    ConversionIsLinewise(lines);
    BareLength(Convert(lines));
  }

  // ---------------------------------------------------------------------------
  // The theorem
  // ---------------------------------------------------------------------------

  /** The Markdown tree of a header with its own text and a body that lies deep enough, before a line that stops it. */
  lemma HeaderTakesBody(head: Line, body: seq<Line>, after: seq<Line>)
    requires IsDirectiveLine(head) && IsSourceLine(head)
    requires AllDeep(body, head.indent + 4) && Stops(after, head.indent + 4)
    ensures MarkdownTree(Opened(head) + body + after) ==
              [Admonition(HeaderOf(head.content), OwnLeaf(head) + MarkdownTree(body))] + MarkdownTree(after)
  {
    var lines := Opened(head) + body + after;
    HeaderTakesInside(head, body, after);
    OwnTextIsLeaf(head, body);
    assert lines[0] == Line(head.indent, Header(HeaderOf(head.content)));
  }

  lemma HeaderTakesInside(head: Line, body: seq<Line>, after: seq<Line>)
    requires IsDirectiveLine(head) && AllDeep(body, head.indent + 4) && Stops(after, head.indent + 4)
    ensures var lines := Opened(head) + body + after;
            StartsHeader(lines) && HeaderRun(lines) == OwnText(head) + body && AfterHeader(lines) == after
  {
    var lines, inside := Opened(head) + body + after, OwnText(head) + body;
    assert lines[0] == Line(head.indent, Header(HeaderOf(head.content))) && lines[1..] == inside + after;
    DeepAppend(OwnText(head), body, head.indent + 4);
    RunStops(inside, after, head.indent + 4);
    RunIsWhole(inside, head.indent + 4);
  }

  lemma OwnTextIsLeaf(head: Line, body: seq<Line>)
    requires IsDirectiveLine(head) && IsSourceLine(head)
    ensures MarkdownTree(OwnText(head) + body) == OwnLeaf(head) + MarkdownTree(body)
  {
    var own, inside := OwnText(head), OwnText(head) + body;
    if own != [] {
      assert inside[0] == own[0] && inside[1..] == body && !StartsHeader(inside);
    } else {
      assert inside == body && OwnLeaf(head) + MarkdownTree(body) == MarkdownTree(body);
    }
  }

  predicate TreePreserved(lines: seq<Line>) {
    MarkdownTree(Convert(lines)) == SourceTree(lines)
  }

  lemma ConsCancels(x: Block, y: Block, a: seq<Block>, b: seq<Block>)
    ensures [x] + a == [y] + b <==> x == y && a == b
  {
    if [x] + a == [y] + b {
      assert ([x] + a)[0] == x && ([y] + b)[0] == y && ([x] + a)[1..] == a && ([y] + b)[1..] == b;
    }
  }

  lemma OwnLeafCancels(own: seq<Block>, a: seq<Block>, b: seq<Block>)
    ensures own + a == own + b <==> a == b
  {
    if own + a == own + b {
      assert (own + a)[|own|..] == a && (own + b)[|own|..] == b;
    }
  }

  /** Two admonitions with the same head and what follows them. */
  lemma SameHeadTrees(head: Line, a: seq<Block>, afterA: seq<Block>, b: seq<Block>, afterB: seq<Block>)
    requires IsDirectiveLine(head)
    ensures [Admonition(HeaderOf(head.content), OwnLeaf(head) + a)] + afterA ==
            [Admonition(HeaderOf(head.content), OwnLeaf(head) + b)] + afterB
            <==> a == b && afterA == afterB
  {
    OwnLeafCancels(OwnLeaf(head), a, b);
    ConsCancels(Admonition(HeaderOf(head.content), OwnLeaf(head) + a),
                Admonition(HeaderOf(head.content), OwnLeaf(head) + b), afterA, afterB);
  }

  lemma BodyDirectivePreserves(lines: seq<Line>)
    requires StartsDirective(lines) && !lines[0].content.Inline? && IsSourceLine(lines[0])
    ensures TreePreserved(lines) <==> TreePreserved(BodyOf(lines)) && TreePreserved(AfterBody(lines))
  {
    var head, body, after := lines[0], BodyOf(lines), AfterBody(lines);
    RunParts(lines);
    BodyIsTheSame(lines);
    ConversionKeepsDepth(body, head.indent + 4);
    ConversionStops(after, head.indent + 4);
    HeaderTakesBody(head, Convert(body), Convert(after));
    SameHeadTrees(head, MarkdownTree(Convert(body)), MarkdownTree(Convert(after)), SourceTree(body), SourceTree(after));
  }

  lemma BodyDirectiveTidy(lines: seq<Line>)
    requires StartsDirective(lines) && !lines[0].content.Inline?
    ensures Tidy(lines) <==> Tidy(BodyOf(lines)) && Tidy(AfterBody(lines))
  {
    RunParts(lines);
    BodyIsTheSame(lines);
    TidySplits(RunOf(lines), AfterRun(lines));
  }

  lemma InlineConverts(lines: seq<Line>)
    requires StartsDirective(lines) && lines[0].content.Inline?
    ensures Convert(lines) == Opened(lines[0]) + Convert(RunOf(lines)) + Convert(AfterRun(lines))
  {
    RunParts(lines);
    ConversionSplits(RunOf(lines), AfterRun(lines));
    NothingTaken(lines);
    assert Opened(lines[0]) + [] == Opened(lines[0]);
    Regroup(Opened(lines[0]), Convert(RunOf(lines)), Convert(AfterRun(lines)));
  }

  lemma TidyInlinePreserves(lines: seq<Line>)
    requires StartsDirective(lines) && lines[0].content.Inline? && IsSourceLine(lines[0])
    requires AllDeep(RunOf(lines), lines[0].indent + 4)
    ensures TreePreserved(lines) <==> TreePreserved(RunOf(lines)) && TreePreserved(AfterRun(lines))
    ensures Tidy(lines) <==> Tidy(RunOf(lines)) && Tidy(AfterRun(lines))
  {
    var head, run, after := lines[0], RunOf(lines), AfterRun(lines);
    RunParts(lines);
    InlineConverts(lines);
    ConversionKeepsDepth(run, head.indent + 4);
    ConversionStops(after, head.indent + 4);
    HeaderTakesBody(head, Convert(run), Convert(after));
    SameHeadTrees(head, MarkdownTree(Convert(run)), MarkdownTree(Convert(after)), SourceTree(run), SourceTree(after));
    TidySplits(run, after);
  }

  /** The Markdown block of a header over a text that does not all lie deep enough is smaller than that text. */
  lemma ShallowLineFallsOut(header: Line, own: Line, text: seq<Line>, after: seq<Line>)
    requires header.Line? && header.content.Header? && own.Line? && !AllDeep(text, header.indent + 4)
    ensures var out := [header, own] + text + after;
            StartsHeader(out) && |HeaderRun(out)| <= |text|
  {
    var out, tail := [header, own] + text + after, text + after;
    assert out[0] == header && out[1..] == [own] + tail;
    RunEndsInside(text, after, header.indent + 4);
    assert ([own] + tail)[1..] == tail;
  }

  /** A shallow line under an inline directive falls out of the Markdown block. */
  lemma UntidyInlineBreaks(lines: seq<Line>)
    requires StartsDirective(lines) && lines[0].content.Inline? && !AllDeep(RunOf(lines), lines[0].indent + 4)
    ensures !TreePreserved(lines)
  {
    var head, run, after := lines[0], RunOf(lines), AfterRun(lines);
    var header, own := Line(head.indent, Header(HeaderOf(head.content))), Line(head.indent + 4, head.content.body);
    InlineConverts(lines);
    assert Opened(head) == [header, own];
    ConversionKeepsDepth(run, head.indent + 4);
    ShallowLineFallsOut(header, own, Convert(run), Convert(after));
    var out := Convert(lines);
    MarkdownSize(HeaderRun(out));
    ConvertedSize(run);
    OwnLeafSize(head, SourceTree(run));
    ConsCancels(Admonition(header.content.header, MarkdownTree(HeaderRun(out))),
                Admonition(HeaderOf(head.content), OwnLeaf(head) + SourceTree(run)),
                MarkdownTree(AfterHeader(out)), SourceTree(after));
  }

  /**
   The conversion preserves which lines belong to which admonition, at every depth, exactly
   when no inline directive has lines under it that are deeper than it by less than four.
   */
  lemma {:induction false} TreePreservedIffTidy(lines: seq<Line>)
    requires IsSource(lines)
    ensures TreePreserved(lines) <==> Tidy(lines)
    decreases |lines|
  {
    if lines == [] {
    } else if !StartsDirective(lines) {
      assert IsSourceLine(lines[0]);
      assert forall i | 0 <= i < |lines[1..]| :: lines[1..][i] == lines[i + 1];
      TreePreservedIffTidy(lines[1..]);
      var out := Convert(lines);
      assert out[0] == lines[0] && out[1..] == Convert(lines[1..]);
      ConsCancels(Leaf(Bare(lines[0])), Leaf(Bare(lines[0])), MarkdownTree(out[1..]), SourceTree(lines[1..]));
    } else {
      PartsAreSource(lines);
      if !lines[0].content.Inline? {
        RunParts(lines);
        BodyDirectivePreserves(lines);
        BodyDirectiveTidy(lines);
        TreePreservedIffTidy(BodyOf(lines));
        TreePreservedIffTidy(AfterBody(lines));
      } else if AllDeep(RunOf(lines), lines[0].indent + 4) {
        TidyInlinePreserves(lines);
        TreePreservedIffTidy(RunOf(lines));
        TreePreservedIffTidy(AfterRun(lines));
      } else {
        UntidyInlineBreaks(lines);
      }
    }
  }
}
