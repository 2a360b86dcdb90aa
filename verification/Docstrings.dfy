/** The converter of one docstring: four passes over its lines and one over its text, each with a list of changes. */
module Docstrings {
  import opened Text
  import opened Wrappers
  import CodeBlocks
  import Doctests
  import Tabs

  /** What a pass returns: the new lines and the changes it reports. */
  datatype Passed = Passed(lines: seq<string>, changes: nat)

  type Pass = seq<string> -> Passed

  /** A pass that changes nothing without saying so. */
  ghost predicate Reports(pass: Pass) {
    forall lines :: pass(lines).changes == 0 ==> pass(lines).lines == lines
  }

  function CodeBlockPass(p: CodeBlocks.Patterns): Pass {
    lines => Passed(CodeBlocks.Convert(lines, p), CodeBlocks.Changes(lines, p))
  }

  function TabPass(p: Tabs.Patterns): Pass {
    lines => Passed(Tabs.Convert(lines, "", p), Tabs.Changes(lines, p))
  }

  function DoctestPass(): Pass {
    lines => Passed(Doctests.Convert(lines, false), Doctests.Blocks(lines, false))
  }

  // ---------------------------------------------------------------------------
  // Lines and text
  // ---------------------------------------------------------------------------

  /** `text.split("\n")` */
  function SplitLines(text: string): (lines: seq<string>)
    ensures lines != []
  {
    if text == "" then [""]
    else if text[0] == '\n' then [""] + SplitLines(text[1..])
    else var rest := SplitLines(text[1..]); [[text[0]] + rest[0]] + rest[1..]
  }

  lemma JoinFirst(first: string, rest: seq<string>)
    ensures Join([first] + rest, "\n") == if rest == [] then first else first + "\n" + Join(rest, "\n")
  {
    assert ([first] + rest)[1..] == rest;
  }

  lemma {:induction false} JoinOfSplit(text: string)
    ensures Join(SplitLines(text), "\n") == text
  {
    if text != "" {
      var rest := SplitLines(text[1..]);
      JoinOfSplit(text[1..]);
      if text[0] == '\n' {
        JoinFirst("", rest);
        assert "" + "\n" + text[1..] == text;
      } else {
        JoinFirst(rest[0], rest[1..]);
        JoinFirst([text[0]] + rest[0], rest[1..]);
        assert [rest[0]] + rest[1..] == rest;
        assert rest[1..] != [] ==>
               ([text[0]] + rest[0]) + "\n" + Join(rest[1..], "\n") ==
                 [text[0]] + (rest[0] + "\n" + Join(rest[1..], "\n"));
        assert [text[0]] + text[1..] == text;
      }
    }
  }

  /**
   The passes over the lines, then the one over the text; `inline` and `admonitions` stand for
   patterns that are left out.
   */
  method ConvertDocstring(
    body: string, code: CodeBlocks.Patterns, tabs: Tabs.Patterns, admonitions: Pass, inline: string -> (string, nat))
    returns (text: string, changes: nat)
    requires Reports(admonitions) && forall s :: inline(s).1 == 0 ==> inline(s).0 == s
    ensures changes == 0 ==> text == body
    ensures changes == 0 <==>
            && (forall i | 0 <= i < |SplitLines(body)| ::
                code.code(SplitLines(body)[i]).None? && tabs(SplitLines(body)[i]).None?)
            && admonitions(SplitLines(body)).changes == 0
            && Doctests.PromptsFenced(SplitLines(body), false)
            && inline(body).1 == 0
  {
    var lines := SplitLines(body);
    ghost var before := lines;
    CodeBlocks.UnchangedIffNoCode(lines, code);
    var step := CodeBlockPass(code)(lines);
    lines, changes := step.lines, step.changes;
    Tabs.UnchangedIffNoTabs(lines, "", tabs);
    step := TabPass(tabs)(lines);
    lines, changes := step.lines, changes + step.changes;
    step := admonitions(lines);
    lines, changes := step.lines, changes + step.changes;
    Doctests.UnchangedIffFenced(lines, false);
    step := DoctestPass()(lines);
    lines, changes := step.lines, changes + step.changes;
    JoinOfSplit(body);
    assert changes == 0 ==> lines == before;
    text := Join(lines, "\n");
    var inlined := inline(text);
    text, changes := inlined.0, changes + inlined.1;
  }
}
