/**
 The pass that turns reStructuredText admonitions into Markdown ones. Lines are already
 classified: blank, plain text, one of the directives, or the header of a Markdown block.
 */
module Admonitions {
  import opened Wrappers

  datatype VersionKind = Added | Changed | Deprecated

  datatype SimpleKind = Note | Warning | Danger | SeeAlso | Important | Tip

  /** A Markdown header: folded or open, a type, and a title if there is one. */
  datatype HeaderText = HeaderText(folded: bool, kind: string, title: Option<string>)

  /** `body` is the text a directive carries on its own line, which may look like a directive itself. */
  datatype Content =
    | Text(text: string)
    | Header(header: HeaderText)
    | Inline(kind: string, body: Content)
    | VersionText(change: VersionKind, version: string, body: Content)
    | Version(change: VersionKind, version: string)
    | Dropdown(title: string)
    | Simple(simple: SimpleKind)

  datatype Line = Blank(raw: string) | Line(indent: nat, content: Content)

  predicate IsDirective(content: Content) {
    content.Inline? || content.VersionText? || content.Version? || content.Dropdown? || content.Simple?
  }

  function Phrase(change: VersionKind): string {
    match change
    case Added => "Added in "
    case Changed => "Changed in "
    case Deprecated => "Deprecated since "
  }

  /** Additions are a success, changes are information, deprecations are a warning. */
  function VersionHeader(change: VersionKind, version: string): HeaderText {
    HeaderText(false, if change == Added then "success" else if change == Changed then "info" else "warning",
               Some(Phrase(change) + version))
  }

  function SimpleHeader(simple: SimpleKind): HeaderText {
    match simple
    case Note => HeaderText(false, "note", None)
    case Warning => HeaderText(false, "warning", None)
    case Danger => HeaderText(false, "danger", None)
    case SeeAlso => HeaderText(false, "info", Some("See also"))
    case Important => HeaderText(false, "important", None)
    case Tip => HeaderText(false, "tip", None)
  }

  /** The header that a directive asks for. */
  function HeaderOf(content: Content): HeaderText
    requires IsDirective(content)
  {
    match content
    case Inline(kind, _) => HeaderText(false, kind, None)
    case VersionText(change, version, _) => VersionHeader(change, version)
    case Version(change, version) => VersionHeader(change, version)
    case Dropdown(title) => HeaderText(true, "note", Some(title))
    case Simple(simple) => SimpleHeader(simple)
  }

  predicate StartsDirective(lines: seq<Line>) {
    lines != [] && lines[0].Line? && IsDirective(lines[0].content)
  }

  /** The line that a directive's own text becomes. */
  function OwnText(line: Line): seq<Line>
    requires line.Line? && IsDirective(line.content)
  {
    if line.content.Inline? || line.content.VersionText? then [Line(line.indent + 4, line.content.body)] else []
  }

  // ---------------------------------------------------------------------------
  // Bodies
  // ---------------------------------------------------------------------------

  predicate IsDeep(line: Line, depth: nat) {
    line.Line? ==> line.indent >= depth
  }

  predicate AllDeep(lines: seq<Line>, depth: nat) {
    forall i | 0 <= i < |lines| :: IsDeep(lines[i], depth)
  }

  /** How many lines, blank ones included, stay at least this deep. */
  function DeepRun(lines: seq<Line>, depth: nat): (n: nat)
    ensures n <= |lines| && AllDeep(lines[..n], depth)
    ensures n < |lines| ==> !IsDeep(lines[n], depth)
  {
    if lines == [] || !IsDeep(lines[0], depth) then 0 else 1 + DeepRun(lines[1..], depth)
  }

  /** The least indentation of the lines that are not blank. */
  function BaseIndent(lines: seq<Line>): (base: Option<nat>)
    ensures base.None? <==> forall i | 0 <= i < |lines| :: lines[i].Blank?
    ensures base.Some? ==>
            AllDeep(lines, base.value) &&
            exists i :: 0 <= i < |lines| && lines[i].Line? && lines[i].indent == base.value
  {
    if lines == [] then None
    else
      var rest := BaseIndent(lines[1..]);
      assert rest.Some? ==> exists i :: 0 <= i < |lines[1..]| && lines[1..][i].Line? &&
                                        lines[i + 1] == lines[1..][i] && lines[i + 1].indent == rest.value;
      if lines[0].Line? && (rest.None? || lines[0].indent < rest.value) then Some(lines[0].indent) else rest
  }

  lemma BaseIndentIs(lines: seq<Line>, i: nat, base: nat)
    requires i < |lines| && lines[i].Line? && lines[i].indent == base && AllDeep(lines, base)
    ensures BaseIndent(lines) == Some(base)
  {
    var found := BaseIndent(lines);
    assert found.Some? && IsDeep(lines[i], found.value);
  }

  function Reindented(line: Line, base: nat, target: nat): Line {
    if line.Line? && line.indent >= base then Line(target + line.indent - base, line.content) else line
  }

  function ReindentAll(lines: seq<Line>, base: nat, target: nat): (moved: seq<Line>)
    ensures |moved| == |lines|
    ensures forall i | 0 <= i < |lines| :: moved[i] == Reindented(lines[i], base, target)
  {
    seq(|lines|, i requires 0 <= i < |lines| => Reindented(lines[i], base, target))
  }

  /** A directive's body, moved so that its shallowest line is four deeper than the directive. */
  function Normalised(body: seq<Line>, indent: nat): (moved: seq<Line>)
    ensures |moved| == |body|
  {
    if BaseIndent(body).None? then body else ReindentAll(body, BaseIndent(body).value, indent + 4)
  }

  method CollectAdmonitionBody(lines: seq<Line>, start: nat, indent: nat) returns (body: seq<Line>, i: nat)
    requires start <= |lines|
    ensures i == start + DeepRun(lines[start..], indent + 1)
    ensures body == Normalised(lines[start..i], indent)
  {
    i := start;
    var raw := [];
    while i < |lines| && (lines[i].Blank? || lines[i].indent > indent)
      invariant start <= i <= |lines|
      invariant raw == lines[start..i]
      invariant i - start <= DeepRun(lines[start..], indent + 1)
    {
      assert lines[start..][i - start] == lines[i];
      raw := raw + [lines[i]];
      i := i + 1;
    }
    assert i < |lines| ==> lines[start..][i - start] == lines[i];
    body := Normalise(raw, indent);
  }

  method Normalise(raw: seq<Line>, indent: nat) returns (body: seq<Line>)
    ensures body == Normalised(raw, indent)
  {
    var base: Option<nat> := None;
    ghost var at := 0;
    for k := 0 to |raw|
      invariant base.None? ==> forall j | 0 <= j < k :: raw[j].Blank?
      invariant base.Some? ==> (forall j | 0 <= j < k :: IsDeep(raw[j], base.value))
      invariant base.Some? ==> 0 <= at < k && raw[at].Line? && raw[at].indent == base.value
    {
      if raw[k].Line? && (base.None? || raw[k].indent < base.value) {
        base, at := Some(raw[k].indent), k;
      }
    }
    if base.None? {
      return raw;
    }
    BaseIndentIs(raw, at, base.value);
    body := [];
    for k := 0 to |raw|
      invariant |body| == k
      invariant forall j | 0 <= j < k :: body[j] == Reindented(raw[j], base.value, indent + 4)
    {
      if raw[k].Blank? {
        body := body + [raw[k]];
      } else {
        body := body + [Line(indent + 4 + (raw[k].indent - base.value), raw[k].content)];
      }
    }
    assert body == ReindentAll(raw, base.value, indent + 4);
  }

  /** Normalising keeps every line and its text in place, and the relative depth of any two lines. */
  lemma NormalisingKeepsShape(body: seq<Line>, indent: nat)
    ensures var moved := Normalised(body, indent);
            && (forall i | 0 <= i < |body| ::
                if body[i].Blank? then moved[i] == body[i] else moved[i].Line? && moved[i].content == body[i].content)
            && (forall i, j | 0 <= i < |body| && 0 <= j < |body| && body[i].Line? && body[j].Line? ::
                  moved[i].indent - moved[j].indent == body[i].indent - body[j].indent)
  {
    if BaseIndent(body).Some? {
      assert forall i | 0 <= i < |body| :: IsDeep(body[i], BaseIndent(body).value);
    }
  }

  /** The shallowest line of a normalised body is four deeper than the directive, and normalising again does nothing. */
  lemma NormalisingIsIdempotent(body: seq<Line>, indent: nat)
    ensures var moved := Normalised(body, indent);
            && BaseIndent(moved) == (if BaseIndent(body).None? then None else Some(indent + 4))
            && AllDeep(moved, indent + 4)
            && Normalised(moved, indent) == moved
  {
    var base, moved := BaseIndent(body), Normalised(body, indent);
    if base.Some? {
      var i :| 0 <= i < |body| && body[i].Line? && body[i].indent == base.value;
      assert forall j | 0 <= j < |body| ::
             IsDeep(body[j], base.value) && moved[j] == Reindented(body[j], base.value, indent + 4);
      BaseIndentIs(moved, i, indent + 4);
      assert ReindentAll(moved, indent + 4, indent + 4) == moved;
    }
  }

  // ---------------------------------------------------------------------------
  // The conversion
  // ---------------------------------------------------------------------------

  /** The lines a directive takes along; a directive of the inline form takes none. */
  function BodyLength(lines: seq<Line>): (n: nat)
    requires StartsDirective(lines)
    ensures n < |lines|
  {
    if lines[0].content.Inline? then 0 else DeepRun(lines[1..], lines[0].indent + 1)
  }

  function BodyOf(lines: seq<Line>): (body: seq<Line>)
    requires StartsDirective(lines)
    ensures |body| < |lines|
  {
    Normalised(lines[1..][..BodyLength(lines)], lines[0].indent)
  }

  function AfterBody(lines: seq<Line>): (rest: seq<Line>)
    requires StartsDirective(lines)
    ensures |rest| < |lines|
  {
    lines[1..][BodyLength(lines)..]
  }

  /** The header of the Markdown block, and the directive's own text under it. */
  function Opened(line: Line): seq<Line>
    requires line.Line? && IsDirective(line.content)
  {
    [Line(line.indent, Header(HeaderOf(line.content)))] + OwnText(line)
  }

  function Convert(lines: seq<Line>): seq<Line>
    decreases |lines|
  {
    if lines == [] then []
    else if !StartsDirective(lines) then [lines[0]] + Convert(lines[1..])
    else Opened(lines[0]) + Convert(BodyOf(lines)) + Convert(AfterBody(lines))
  }

  /** How many directives the conversion reports: one entry of the change list for each. */
  function Changes(lines: seq<Line>): nat
    decreases |lines|
  {
    if lines == [] then 0
    else if !StartsDirective(lines) then Changes(lines[1..])
    else 1 + Changes(BodyOf(lines)) + Changes(AfterBody(lines))
  }

  method ConvertAdmonitions(lines: seq<Line>) returns (result: seq<Line>, changes: seq<HeaderText>)
    ensures result == Convert(lines)
    ensures |changes| == Changes(lines)
    decreases |lines|, 1
  {
    result, changes := [], [];
    var i := 0;
    while i < |lines|
      invariant 0 <= i <= |lines|
      invariant Convert(lines) == result + Convert(lines[i..])
      invariant Changes(lines) == |changes| + Changes(lines[i..])
    {
      var line := lines[i];
      if line.Blank? || !IsDirective(line.content) {
        PlainStep(lines, i, result);
        result := result + [line];
        i := i + 1;
      } else {
        DirectiveStep(lines[i..], result);
        var block, more, next := ConvertDirective(lines, i);
        result := result + block;
        changes := changes + more;
        i := next;
      }
    }
  }

  /** One directive with the body it takes along, converted in turn. */
  method ConvertDirective(lines: seq<Line>, start: nat) returns (block: seq<Line>, changes: seq<HeaderText>, i: nat)
    requires start < |lines| && StartsDirective(lines[start..])
    ensures start < i <= |lines| && lines[i..] == AfterBody(lines[start..])
    ensures block == Opened(lines[start]) + Convert(BodyOf(lines[start..]))
    ensures |changes| == 1 + Changes(BodyOf(lines[start..]))
    decreases |lines|, 0
  {
    var line := lines[start];
    TailOf(lines, start);
    block := Opened(line);
    changes := [HeaderOf(line.content)];
    i := start + 1;
    if line.content.Inline? {
      NothingTaken(lines[start..]);
    } else {
      var body, next := CollectAdmonitionBody(lines, i, line.indent);
      BodyIsSlice(lines, i, next, line.indent);
      var converted, more := ConvertAdmonitions(body);
      block := block + converted;
      changes := changes + more;
      i := next;
    }
  }

  lemma TailOf(lines: seq<Line>, i: nat)
    requires i < |lines|
    ensures lines[i..][0] == lines[i] && lines[i..][1..] == lines[i + 1..]
  {
  }

  lemma PlainStep(lines: seq<Line>, i: nat, result: seq<Line>)
    requires i < |lines| && !StartsDirective(lines[i..])
    ensures result + Convert(lines[i..]) == result + [lines[i]] + Convert(lines[i + 1..])
    ensures Changes(lines[i..]) == Changes(lines[i + 1..])
  {
    TailOf(lines, i);
  }

  lemma DirectiveStep(tail: seq<Line>, result: seq<Line>)
    requires StartsDirective(tail)
    ensures result + Convert(tail) == result + (Opened(tail[0]) + Convert(BodyOf(tail))) + Convert(AfterBody(tail))
    ensures Changes(tail) == 1 + Changes(BodyOf(tail)) + Changes(AfterBody(tail))
  {
    AppendThree(result, Opened(tail[0]), Convert(BodyOf(tail)), Convert(AfterBody(tail)));
  }

  lemma NothingTaken(tail: seq<Line>)
    requires StartsDirective(tail) && tail[0].content.Inline?
    ensures BodyOf(tail) == [] && Convert(BodyOf(tail)) == [] && Changes(BodyOf(tail)) == 0 &&
            AfterBody(tail) == tail[1..]
  {
  }

  lemma BodyIsSlice(lines: seq<Line>, i: nat, next: nat, indent: nat)
    requires i <= |lines| && next == i + DeepRun(lines[i..], indent + 1)
    ensures lines[i..next] == lines[i..][..next - i] && lines[next..] == lines[i..][next - i..]
  {
  }

  lemma AppendThree(result: seq<Line>, a: seq<Line>, b: seq<Line>, c: seq<Line>)
    ensures result + (a + b + c) == result + (a + b) + c
  {
  }

  // ---------------------------------------------------------------------------
  // Line by line, but for indentation
  // ---------------------------------------------------------------------------

  function Bare(line: Line): Line {
    if line.Blank? then line else Line(0, line.content)
  }

  function BareAll(lines: seq<Line>): seq<Line> {
    if lines == [] then [] else [Bare(lines[0])] + BareAll(lines[1..])
  }

  /** What one line becomes, wherever it stands: itself, or a header and the directive's own text. */
  function Emitted(line: Line): seq<Line> {
    if line.Blank? then [line]
    else if !IsDirective(line.content) then [Line(0, line.content)]
    else if line.content.Inline? || line.content.VersionText? then
      [Line(0, Header(HeaderOf(line.content))), Line(0, line.content.body)]
    else [Line(0, Header(HeaderOf(line.content)))]
  }

  function EmittedAll(lines: seq<Line>): seq<Line> {
    if lines == [] then [] else Emitted(lines[0]) + EmittedAll(lines[1..])
  }

  lemma {:induction false} BareAppend(a: seq<Line>, b: seq<Line>)
    ensures BareAll(a + b) == BareAll(a) + BareAll(b)
  {
    if a == [] {
      assert a + b == b;
    } else {
      assert (a + b)[1..] == a[1..] + b;
      BareAppend(a[1..], b);
    }
  }

  lemma {:induction false} EmittedAppend(a: seq<Line>, b: seq<Line>)
    ensures EmittedAll(a + b) == EmittedAll(a) + EmittedAll(b)
  {
    if a == [] {
      assert a + b == b;
    } else {
      assert (a + b)[1..] == a[1..] + b;
      EmittedAppend(a[1..], b);
    }
  }

  lemma {:induction false} ReindentingKeepsEmitted(lines: seq<Line>, base: nat, target: nat)
    ensures EmittedAll(ReindentAll(lines, base, target)) == EmittedAll(lines)
  {
    if lines != [] {
      var moved := ReindentAll(lines, base, target);
      assert moved[1..] == ReindentAll(lines[1..], base, target);
      ReindentingKeepsEmitted(lines[1..], base, target);
      assert Emitted(moved[0]) == Emitted(lines[0]);
    }
  }

  lemma OpenedIsEmitted(head: Line)
    requires head.Line? && IsDirective(head.content)
    ensures BareAll(Opened(head)) == Emitted(head)
  {
    var header := Line(head.indent, Header(HeaderOf(head.content)));
    assert BareAll([]) == [] && BareAll([header]) == [Bare(header)] by { assert [header][1..] == []; }
    if head.content.Inline? || head.content.VersionText? {
      var own := Line(head.indent + 4, head.content.body);
      assert Opened(head) == [header, own] && [header, own][1..] == [own] && [own][1..] == [];
      assert BareAll([own]) == [Bare(own)];
    } else {
      assert Opened(head) == [header];
    }
  }

  lemma NormalisingKeepsEmitted(body: seq<Line>, indent: nat)
    ensures EmittedAll(Normalised(body, indent)) == EmittedAll(body)
  {
    if BaseIndent(body).Some? {
      ReindentingKeepsEmitted(body, BaseIndent(body).value, indent + 4);
    }
  }

  /** A directive and its body emit what their lines emit. */
  lemma DirectiveEmits(lines: seq<Line>)
    requires StartsDirective(lines)
    ensures EmittedAll(lines) == Emitted(lines[0]) + EmittedAll(BodyOf(lines)) + EmittedAll(AfterBody(lines))
  {
    var body := lines[1..][..BodyLength(lines)];
    NormalisingKeepsEmitted(body, lines[0].indent);
    BodyAndRest(lines);
    EmittedAppend(body, AfterBody(lines));
    Regroup(Emitted(lines[0]), EmittedAll(body), EmittedAll(AfterBody(lines)));
  }

  lemma BodyAndRest(lines: seq<Line>)
    requires StartsDirective(lines)
    ensures lines[1..][..BodyLength(lines)] + AfterBody(lines) == lines[1..]
  {
  }

  lemma Regroup(a: seq<Line>, b: seq<Line>, c: seq<Line>)
    ensures a + (b + c) == a + b + c
  {
  }

  /**
   But for indentation the recursive conversion replaces line by line: nothing is lost,
   repeated or reordered, and directives at every depth are converted.
   */
  lemma {:induction false} ConversionIsLinewise(lines: seq<Line>)
    ensures BareAll(Convert(lines)) == EmittedAll(lines)
    decreases |lines|
  {
    if lines == [] {
    } else if !StartsDirective(lines) {
      ConversionIsLinewise(lines[1..]);
      var out := [lines[0]] + Convert(lines[1..]);
      assert out[1..] == Convert(lines[1..]);
    } else {
      var body, after := BodyOf(lines), AfterBody(lines);
      ConversionIsLinewise(body);
      ConversionIsLinewise(after);
      OpenedIsEmitted(lines[0]);
      BareAppend(Opened(lines[0]) + Convert(body), Convert(after));
      BareAppend(Opened(lines[0]), Convert(body));
      DirectiveEmits(lines);
    }
  }

  // ---------------------------------------------------------------------------
  // Running the conversion twice
  // ---------------------------------------------------------------------------

  predicate IsDirectiveLine(line: Line) {
    line.Line? && IsDirective(line.content)
  }

  predicate NoDirectives(lines: seq<Line>) {
    lines != [] ==> !IsDirectiveLine(lines[0]) && NoDirectives(lines[1..])
  }

  /** No directive carries a text that is itself a directive. */
  predicate PlainTexts(lines: seq<Line>) {
    lines != [] ==> PlainText(lines[0]) && PlainTexts(lines[1..])
  }

  predicate PlainText(line: Line) {
    line.Line? && (line.content.Inline? || line.content.VersionText?) ==> !IsDirective(line.content.body)
  }

  /** A text without directives is left alone and reports no change; one with directives reports one for each. */
  lemma {:induction false} UnchangedIffNoDirectives(lines: seq<Line>)
    ensures NoDirectives(lines) <==> Changes(lines) == 0
    ensures NoDirectives(lines) ==> Convert(lines) == lines
    decreases |lines|
  {
    if lines != [] && !StartsDirective(lines) {
      UnchangedIffNoDirectives(lines[1..]);
      assert lines == [lines[0]] + lines[1..];
    }
  }

  lemma {:induction false} NoDirectivesAppend(a: seq<Line>, b: seq<Line>)
    ensures NoDirectives(a + b) <==> NoDirectives(a) && NoDirectives(b)
  {
    if a == [] {
      assert a + b == b;
    } else {
      assert (a + b)[1..] == a[1..] + b;
      NoDirectivesAppend(a[1..], b);
    }
  }

  lemma EmittedDirective(line: Line)
    ensures NoDirectives(Emitted(line)) <==> PlainText(line)
  {
    var out := Emitted(line);
    assert NoDirectives([]);
    if |out| == 1 {
      assert out[1..] == [];
    } else {
      assert out[1..] == [out[1]] && [out[1]][1..] == [];
      assert NoDirectives([out[1]]) <==> !IsDirectiveLine(out[1]);
    }
  }

  lemma {:induction false} EmittedDirectives(lines: seq<Line>)
    ensures NoDirectives(EmittedAll(lines)) <==> PlainTexts(lines)
  {
    if lines != [] {
      EmittedDirectives(lines[1..]);
      NoDirectivesAppend(Emitted(lines[0]), EmittedAll(lines[1..]));
      EmittedDirective(lines[0]);
    }
  }

  lemma {:induction false} BareDirectives(lines: seq<Line>)
    ensures NoDirectives(BareAll(lines)) <==> NoDirectives(lines)
  {
    if lines != [] {
      BareDirectives(lines[1..]);
      assert BareAll(lines)[1..] == BareAll(lines[1..]);
    }
  }

  /** Emitting changes a text that has a directive. */
  lemma {:induction false} EmittingFixesOnlyPlainLines(lines: seq<Line>)
    requires EmittedAll(lines) == BareAll(lines)
    ensures NoDirectives(lines)
  {
    if lines != [] {
      assert EmittedAll(lines)[0] == Emitted(lines[0])[0] && BareAll(lines)[0] == Bare(lines[0]);
      assert EmittedAll(lines)[1..] == EmittedAll(lines[1..]) && BareAll(lines)[1..] == BareAll(lines[1..]);
      EmittingFixesOnlyPlainLines(lines[1..]);
    }
  }

  /** Converting twice is converting once exactly when no directive's own text is a directive. */
  lemma SecondConversionChangesNothingIff(lines: seq<Line>)
    ensures Convert(Convert(lines)) == Convert(lines) <==> PlainTexts(lines)
  {
    var once := Convert(lines);
    ConversionIsLinewise(lines);
    EmittedDirectives(lines);
    BareDirectives(once);
    UnchangedIffNoDirectives(once);
    if Convert(once) == once {
      ConversionIsLinewise(once);
      EmittingFixesOnlyPlainLines(once);
    }
  }
}
