/** The pass that turns code directives into fenced blocks. What its patterns recognise is a parameter. */
module CodeBlocks {
  import opened CodeBodies
  import opened Sequences
  import opened Text
  import opened Wrappers

  datatype Code = Code(indent: string, language: string)

  datatype Patterns = Patterns(code: string -> Option<Code>, isOption: string -> bool,
                               caption: string -> Option<string>)

  /** The indent of a directive is the white space in front of it. */
  ghost predicate IsSound(p: Patterns) {
    forall line :: p.code(line).Some? ==> AllSpaces(p.code(line).value.indent)
  }

  function AfterOptions(lines: seq<string>, p: Patterns): (rest: seq<string>)
    ensures |rest| <= |lines|
  {
    if lines != [] && p.isOption(lines[0]) then AfterOptions(lines[1..], p) else lines
  }

  /** The last caption among the options; `title` is what was found before. */
  function TitleOf(lines: seq<string>, p: Patterns, title: string): string {
    if lines == [] || !p.isOption(lines[0]) then title
    else TitleOf(lines[1..], p, if p.caption(lines[0]).Some? then p.caption(lines[0]).value else title)
  }

  function InfoOf(code: Code, title: string): string {
    code.language + if title == "" then "" else " title=\"" + title + "\""
  }

  /** The lines behind a directive, its options and one blank line. */
  function AfterHead(lines: seq<string>, p: Patterns): (rest: seq<string>)
    requires lines != []
    ensures |rest| < |lines|
  {
    AfterBlank(AfterOptions(lines[1..], p))
  }

  function BodyOf(lines: seq<string>, p: Patterns, code: Code): (body: seq<string>)
    requires lines != []
    ensures forall i | 0 <= i < |body| :: InBody(body[i], |code.indent| + 4)
  {
    BodyLines(AfterHead(lines, p), |code.indent| + 4)
  }

  function BlockOf(lines: seq<string>, p: Patterns, code: Code): seq<string>
    requires lines != []
  {
    Fenced(code.indent, InfoOf(code, TitleOf(lines[1..], p, "")),
           Trimmed(Unindented(BodyOf(lines, p, code), |code.indent| + 4)))
  }

  function AfterBlock(lines: seq<string>, p: Patterns, code: Code): (rest: seq<string>)
    requires lines != []
    ensures |rest| < |lines| && BodyOf(lines, p, code) + rest == AfterHead(lines, p)
  {
    AfterBody(AfterHead(lines, p), |code.indent| + 4)
  }

  function Convert(lines: seq<string>, p: Patterns): seq<string>
    decreases |lines|
  {
    if lines == [] then []
    else
      match p.code(lines[0])
      case None => [lines[0]] + Convert(lines[1..], p)
      case Some(code) => BlockOf(lines, p, code) + Convert(AfterBlock(lines, p, code), p)
  }

  /** One entry of the change list for each converted directive. */
  function Changes(lines: seq<string>, p: Patterns): nat
    decreases |lines|
  {
    if lines == [] then 0
    else
      match p.code(lines[0])
      case None => Changes(lines[1..], p)
      case Some(code) => 1 + Changes(AfterBlock(lines, p, code), p)
  }

  method SkipOptions(lines: seq<string>, start: nat, p: Patterns) returns (title: string, i: nat)
    requires start <= |lines|
    ensures start <= i <= |lines| && lines[i..] == AfterOptions(lines[start..], p)
    ensures title == TitleOf(lines[start..], p, "")
  {
    title, i := "", start;
    while i < |lines| && p.isOption(lines[i])
      invariant start <= i <= |lines|
      invariant AfterOptions(lines[start..], p) == AfterOptions(lines[i..], p)
      invariant TitleOf(lines[start..], p, "") == TitleOf(lines[i..], p, title)
    {
      assert lines[i..][0] == lines[i] && lines[i..][1..] == lines[i + 1..];
      if p.caption(lines[i]).Some? {
        title := p.caption(lines[i]).value;
      }
      i := i + 1;
    }
  }

  /** Past a directive, its options and a single blank line. */
  method SkipHead(lines: seq<string>, i: nat, p: Patterns) returns (title: string, j: nat)
    requires i < |lines|
    ensures i < j <= |lines| && lines[j..] == AfterHead(lines[i..], p)
    ensures title == TitleOf(lines[i..][1..], p, "")
  {
    title, j := SkipOptions(lines, i + 1, p);
    assert lines[i..][1..] == lines[i + 1..];
    if j < |lines| && IsBlank(lines[j]) {
      assert lines[j..][0] == lines[j] && lines[j..][1..] == lines[j + 1..];
      j := j + 1;
    }
  }

  /** One directive at line `i`, with its options and its body. */
  method ConvertBlock(lines: seq<string>, i: nat, p: Patterns, code: Code) returns (block: seq<string>, next: nat)
    requires i < |lines| && p.code(lines[i]) == Some(code)
    ensures i < next <= |lines|
    ensures block == BlockOf(lines[i..], p, code) && lines[next..] == AfterBlock(lines[i..], p, code)
  {
    var title, j := SkipHead(lines, i, p);
    var body, end := CollectBody(lines, j, |code.indent| + 4);
    next := end;
    block := Fenced(code.indent, InfoOf(code, title), body);
  }

  method ConvertCodeBlocks(lines: seq<string>, p: Patterns) returns (result: seq<string>, changes: seq<string>)
    ensures result == Convert(lines, p)
    ensures |changes| == Changes(lines, p)
  {
    result, changes := [], [];
    var i := 0;
    while i < |lines|
      invariant 0 <= i <= |lines|
      invariant Convert(lines, p) == result + Convert(lines[i..], p)
      invariant Changes(lines, p) == |changes| + Changes(lines[i..], p)
    {
      ghost var rest := lines[i..];
      assert rest[0] == lines[i] && rest[1..] == lines[i + 1..];
      match p.code(lines[i]) {
        case None =>
          result := result + [lines[i]];
          i := i + 1;
        case Some(code) =>
          var block, next := ConvertBlock(lines, i, p, code);
          Regroup(result, block, Convert(lines[next..], p));
          result := result + block;
          changes := changes + ["code block: .. code:: " + code.language];
          i := next;
      }
    }
  }

  lemma Regroup(a: seq<string>, b: seq<string>, c: seq<string>)
    ensures a + (b + c) == a + b + c
  {
  }

  // ---------------------------------------------------------------------------
  // What the pass promises
  // ---------------------------------------------------------------------------

  /** No change is reported exactly for texts without a code directive, and they come out unchanged. */
  lemma {:induction false} UnchangedIffNoCode(lines: seq<string>, p: Patterns)
    ensures Changes(lines, p) == 0 <==> forall i | 0 <= i < |lines| :: p.code(lines[i]).None?
    ensures Changes(lines, p) == 0 ==> Convert(lines, p) == lines
  {
    if lines != [] && p.code(lines[0]).None? {
      UnchangedIffNoCode(lines[1..], p);
      assert [lines[0]] + lines[1..] == lines;
      assert forall i | 1 <= i < |lines| :: lines[i] == lines[1..][i - 1];
    }
  }

  /** Directives and options say how to show code and are dropped; nothing else may be. */
  function IsMarkup(p: Patterns): string -> bool {
    line => p.code(line).Some? || p.isOption(line)
  }

  lemma {:induction false} OptionsAreMarkup(lines: seq<string>, p: Patterns)
    ensures Without(AfterOptions(lines, p), IsMarkup(p)) == Without(lines, IsMarkup(p))
  {
    if lines != [] && p.isOption(lines[0]) {
      OptionsAreMarkup(lines[1..], p);
    }
  }

  lemma HeadShowsNothing(lines: seq<string>, p: Patterns)
    requires lines != [] && p.code(lines[0]).Some?
    ensures Visible(Without(lines, IsMarkup(p))) == Visible(Without(AfterHead(lines, p), IsMarkup(p)))
  {
    assert IsMarkup(p)(lines[0]);
    assert Without(lines, IsMarkup(p)) == Without(lines[1..], IsMarkup(p));
    OptionsAreMarkup(lines[1..], p);
    BlankShowsNothing(AfterOptions(lines[1..], p), IsMarkup(p));
  }

  /** All lines but the directives that are converted, the options behind them, and one blank line. */
  function Payload(lines: seq<string>, p: Patterns): seq<string>
    decreases |lines|
  {
    if lines == [] then []
    else
      match p.code(lines[0])
      case None => [lines[0]] + Payload(lines[1..], p)
      case Some(code) => BodyOf(lines, p, code) + Payload(AfterBlock(lines, p, code), p)
  }

  /** All of the payload comes out in order, body lines that look like options or directives included. */
  lemma {:induction false} PayloadIsShown(lines: seq<string>, p: Patterns)
    requires IsSound(p)
    ensures Subsequence(Visible(Payload(lines, p)), Visible(Convert(lines, p)))
    decreases |lines|
  {
    if lines != [] {
      match p.code(lines[0]) {
        case None =>
          PayloadIsShown(lines[1..], p);
          ShowsItself(Visible([lines[0]]));
          PartsAreShown([lines[0]], Payload(lines[1..], p), [lines[0]], Convert(lines[1..], p));
        case Some(code) =>
          var rest := AfterBlock(lines, p, code);
          PayloadIsShown(rest, p);
          FencedBodyIsShown(BodyOf(lines, p, code), |code.indent| + 4, code.indent,
                            InfoOf(code, TitleOf(lines[1..], p, "")));
          PartsAreShown(BodyOf(lines, p, code), Payload(rest, p), BlockOf(lines, p, code), Convert(rest, p));
      }
    }
  }

  /** What the payload leaves out besides blank lines are directives and options. */
  lemma {:induction false} PayloadHasTheRest(lines: seq<string>, p: Patterns)
    ensures Subsequence(Visible(Without(lines, IsMarkup(p))), Visible(Payload(lines, p)))
    decreases |lines|
  {
    if lines != [] {
      match p.code(lines[0]) {
        case None =>
          PayloadHasTheRest(lines[1..], p);
          WithoutIsPart([lines[0]], IsMarkup(p));
          PartsShowAll([lines[0]], lines[1..], IsMarkup(p), [lines[0]], Payload(lines[1..], p));
          assert [lines[0]] + lines[1..] == lines;
        case Some(code) =>
          var body, rest := BodyOf(lines, p, code), AfterBlock(lines, p, code);
          PayloadHasTheRest(rest, p);
          HeadShowsNothing(lines, p);
          WithoutIsPart(body, IsMarkup(p));
          PartsShowAll(body, rest, IsMarkup(p), body, Payload(rest, p));
      }
    }
  }

  /** Every visible line that is neither a directive nor an option comes out with its text, in order. */
  lemma NoCodeIsLost(lines: seq<string>, p: Patterns)
    requires IsSound(p)
    ensures Subsequence(Visible(Without(lines, IsMarkup(p))), Visible(Convert(lines, p)))
  {
    PayloadHasTheRest(lines, p);
    PayloadIsShown(lines, p);
    SubsequenceTransitive(Visible(Without(lines, IsMarkup(p))), Visible(Payload(lines, p)), Visible(Convert(lines, p)));
  }

  // ---------------------------------------------------------------------------
  // Language and title
  // ---------------------------------------------------------------------------

  function FirstWord(s: string): (n: nat)
    ensures n <= |s| && (forall i | 0 <= i < n :: s[i] != ' ') && (n < |s| ==> s[n] == ' ')
  {
    if s == "" || s[0] == ' ' then 0 else 1 + FirstWord(s[1..])
  }

  /** How Markdown reads what stands behind the backquotes: a language, and a title in quotes. */
  function ReadInfo(s: string): (string, string) {
    var n := FirstWord(s);
    if n + 9 <= |s| && s[n..n + 8] == " title=\"" && s[|s| - 1] == '"' then (s[..n], s[n + 8..|s| - 1])
    else (s[..n], "")
  }

  lemma {:induction false} WordEndsAtBlank(word: string, rest: string)
    requires ' ' !in word && (rest == "" || rest[0] == ' ')
    ensures FirstWord(word + rest) == |word|
  {
    if word == "" {
      assert word + rest == rest;
    } else {
      assert (word + rest)[1..] == word[1..] + rest;
      WordEndsAtBlank(word[1..], rest);
    }
  }

  /** The opening fence names the directive's language and the caption found among its options. */
  lemma InfoReadsBack(code: Code, title: string)
    requires ' ' !in code.language
    ensures ReadInfo(InfoOf(code, title)) == (code.language, title)
  {
    var n := |code.language|;
    if title == "" {
      WordEndsAtBlank(code.language, "");
      assert code.language + "" == code.language;
    } else {
      var mark, s := " title=\"", InfoOf(code, title);
      assert s == code.language + (mark + title + "\"");
      WordEndsAtBlank(code.language, mark + title + "\"");
      assert s[n..n + 8] == mark && s[|s| - 1] == '"' && s[n + 8..|s| - 1] == title && s[..n] == code.language;
    }
  }

  /** The title is the caption of the last option that has one, and none if no option has. */
  lemma {:induction false} TitleIsTheLastCaption(lines: seq<string>, p: Patterns, k: nat)
    requires k <= |lines| && (forall i | 0 <= i < k :: p.isOption(lines[i])) && (k < |lines| ==> !p.isOption(lines[k]))
    ensures (forall i | 0 <= i < k :: p.caption(lines[i]).None?) ==> TitleOf(lines, p, "") == ""
    ensures forall i | 0 <= i < k && p.caption(lines[i]).Some? && (forall j | i < j < k :: p.caption(lines[j]).None?) ::
              TitleOf(lines, p, "") == p.caption(lines[i]).value
  {
    LastCaptionFrom(lines, p, k, "");
  }

  lemma {:induction false} LastCaptionFrom(lines: seq<string>, p: Patterns, k: nat, title: string)
    requires k <= |lines| && (forall i | 0 <= i < k :: p.isOption(lines[i])) && (k < |lines| ==> !p.isOption(lines[k]))
    ensures (forall i | 0 <= i < k :: p.caption(lines[i]).None?) ==> TitleOf(lines, p, title) == title
    ensures forall i | 0 <= i < k && p.caption(lines[i]).Some? && (forall j | i < j < k :: p.caption(lines[j]).None?) ::
              TitleOf(lines, p, title) == p.caption(lines[i]).value
  {
    if k > 0 {
      var next := if p.caption(lines[0]).Some? then p.caption(lines[0]).value else title;
      LastCaptionFrom(lines[1..], p, k - 1, next);
      assert forall i | 1 <= i < k :: lines[i] == lines[1..][i - 1];
      assert forall i | 0 <= i < k - 1 :: lines[1..][i] == lines[i + 1];
    }
  }

  /**
   The block that a directive becomes: its fences at the directive's own depth, the opening one
   with language and title.
   */
  lemma BlockIsFenced(lines: seq<string>, p: Patterns, code: Code)
    requires lines != [] && AllSpaces(code.indent) && ' ' !in code.language
    ensures var block, n := BlockOf(lines, p, code), |BlockOf(lines, p, code)|; var mark := code.indent + "```";
            && n >= 2 && mark <= block[0] && block[n - 1] == mark
            && ReadInfo(block[0][|mark|..]) == (code.language, TitleOf(lines[1..], p, ""))
  {
    var title := TitleOf(lines[1..], p, "");
    InfoReadsBack(code, title);
    assert (code.indent + "```" + InfoOf(code, title))[|code.indent| + 3..] == InfoOf(code, title);
  }
}
