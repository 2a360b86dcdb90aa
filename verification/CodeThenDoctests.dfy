/**
 The code pass and then the doctest pass: when every prompt ends up inside a fence, told from
 the lines of the docstring itself.
 */
module CodeThenDoctests {
  import opened CodeBodies
  import opened Doctests
  import opened Text
  import opened Wrappers
  import CodeBlocks

  // ---------------------------------------------------------------------------
  // The doctest pass, line by line
  // ---------------------------------------------------------------------------

  /**
   Where a line stands once the doctest pass has run. In an exposed line the pass is collecting
   a block whose fence a reader has seen closed; a lost reader takes fences for gaps and gaps
   for fences.
   */
  datatype Mode = Outside | InFence | InBlock | Exposed | Lost

  /** A fence line outside of blocks opens or closes a fence, inside of blocks it hides or shows the block's own. */
  function AcrossFence(mode: Mode): Mode {
    match mode
    case Outside => InFence
    case InFence => Outside
    case InBlock => Exposed
    case Exposed => InBlock
    case Lost => Lost
  }

  function AcrossBlank(mode: Mode): Mode {
    match mode
    case InBlock => Outside
    case Exposed => Lost
    case _ => mode
  }

  function Next(mode: Mode, line: string): Mode {
    if IsBlank(line) then AcrossBlank(mode)
    else if IsFence(line) then AcrossFence(mode)
    else if IsPrompt(line) && mode == Outside then InBlock
    else mode
  }

  function After(lines: seq<string>, mode: Mode): Mode {
    if lines == [] then mode else After(lines[1..], Next(mode, lines[0]))
  }

  /** No prompt is met in an exposed block or by a lost reader. */
  predicate IsFine(lines: seq<string>, mode: Mode) {
    lines != [] ==>
      && !(IsPrompt(lines[0]) && (mode == Exposed || mode == Lost))
      && IsFine(lines[1..], Next(mode, lines[0]))
  }

  function ModeOf(inFence: bool, seen: bool): Mode {
    if inFence != seen then Lost else if inFence then InFence else Outside
  }

  lemma BlankLines(line: string)
    requires IsBlank(line)
    ensures !IsFence(line) && !IsPrompt(line)
  {
  }

  /** A block reads on to its end as the fences in it say; behind it the reader is right again, or lost. */
  lemma {:induction false} BlockIsRead(block: seq<string>, rest: seq<string>, seen: bool)
    requires (forall i | 0 <= i < |block| :: !IsBlank(block[i])) && (rest != [] ==> IsBlank(rest[0]))
    ensures IsFine(block + rest, if seen then InBlock else Exposed) <==>
            PromptsFenced(block, seen) && IsFine(rest, ModeOf(false, !FenceState(block, seen)))
  {
    if block == [] {
      assert block + rest == rest;
      if rest != [] {
        BlankLines(rest[0]);
      }
    } else {
      if IsPrompt(block[0]) {
        PromptLines(block[0]);
      }
      assert (block + rest)[1..] == block[1..] + rest;
      BlockIsRead(block[1..], rest, if IsFence(block[0]) then !seen else seen);
    }
  }

  /** The reading block by block is a reading line by line. */
  lemma {:induction false} LinesAreRead(lines: seq<string>, inFence: bool, seen: bool)
    ensures ReadsFenced(lines, inFence, seen) <==> IsFine(lines, ModeOf(inFence, seen))
    decreases |lines|
  {
    if lines == [] {
    } else if StartsBlock(lines[0], inFence) {
      PromptLines(lines[0]);
      var n := BlockLength(lines);
      var block, rest := lines[..n], lines[n..];
      LinesAreRead(rest, false, !FenceState(block, !seen));
      if !seen {
        assert block + rest == lines;
        BlockIsRead(block, rest, true);
      }
    } else {
      if IsPrompt(lines[0]) {
        PromptLines(lines[0]);
      } else if IsBlank(lines[0]) {
        BlankLines(lines[0]);
      }
      var turned := IsFence(lines[0]);
      LinesAreRead(lines[1..], if turned then !inFence else inFence, if turned then !seen else seen);
    }
  }

  /** After the doctest pass every prompt is fenced exactly when none is met exposed or lost. */
  lemma PromptsFencedIff(lines: seq<string>)
    ensures PromptsFenced(Convert(lines, false), false) <==> IsFine(lines, Outside)
  {
    ReadsFencedIs(lines, false, false);
    LinesAreRead(lines, false, false);
  }

  lemma {:induction false} FineInParts(a: seq<string>, b: seq<string>, mode: Mode)
    ensures IsFine(a + b, mode) <==> IsFine(a, mode) && IsFine(b, After(a, mode))
    ensures After(a + b, mode) == After(b, After(a, mode))
  {
    if a == [] {
      assert a + b == b;
    } else {
      assert (a + b)[1..] == a[1..] + b;
      FineInParts(a[1..], b, Next(mode, a[0]));
    }
  }

  // ---------------------------------------------------------------------------
  // What the code pass puts in front of it
  // ---------------------------------------------------------------------------

  predicate AreOfOneKind(x: string, y: string) {
    (IsBlank(x) <==> IsBlank(y)) && (IsFence(x) <==> IsFence(y)) && (IsPrompt(x) <==> IsPrompt(y))
  }

  lemma {:induction false} OneKindReadsAlike(a: seq<string>, b: seq<string>, mode: Mode)
    requires |a| == |b| && forall i | 0 <= i < |a| :: AreOfOneKind(a[i], b[i])
    ensures (IsFine(a, mode) <==> IsFine(b, mode)) && After(a, mode) == After(b, mode)
  {
    if a != [] {
      assert AreOfOneKind(a[0], b[0]);
      OneKindReadsAlike(a[1..], b[1..], Next(mode, a[0]));
    }
  }

  /** Without the blank lines at the end. */
  function WithoutBlankEnd(lines: seq<string>): (body: seq<string>)
    ensures body <= lines
  {
    if lines != [] && IsBlank(lines[|lines| - 1]) then WithoutBlankEnd(lines[..|lines| - 1]) else lines
  }

  lemma MovedLine(line: string, minIndent: nat, indent: string)
    requires InBody(line, minIndent) && AllSpaces(indent)
    ensures AreOfOneKind(indent + MovedLeft(line, minIndent), line)
    ensures MovedLeft(line, minIndent) == "" <==> IsBlank(line)
  {
    LStripOfSpaced(indent, MovedLeft(line, minIndent));
    if !IsBlank(line) {
      LStripPastSpaces(line, minIndent);
    }
  }

  lemma {:induction false} TrimmedIs(lines: seq<string>, minIndent: nat)
    requires forall i | 0 <= i < |lines| :: InBody(lines[i], minIndent)
    ensures Trimmed(Unindented(lines, minIndent)) == Unindented(WithoutBlankEnd(lines), minIndent)
  {
    if lines != [] {
      var n := |lines| - 1;
      MovedLine(lines[n], minIndent, "");
      if IsBlank(lines[n]) {
        TrimmedIs(lines[..n], minIndent);
        assert Unindented(lines, minIndent)[..n] == Unindented(lines[..n], minIndent);
      }
    }
  }

  lemma FenceLine(indent: string, info: string)
    requires AllSpaces(indent)
    ensures var line := indent + "```" + info; IsFence(line) && !IsBlank(line) && !IsPrompt(line)
  {
    var mark := "```" + info;
    assert mark[0] == '`' && mark[..3] == "```" && indent + "```" + info == indent + mark;
    LStripOfIndented(indent, mark);
  }

  /** The lines of a body that come out, as they stand in the docstring. */
  function CodeOf(lines: seq<string>, p: CodeBlocks.Patterns, code: CodeBlocks.Code): (body: seq<string>)
    requires lines != []
    ensures forall i | 0 <= i < |body| :: InBody(body[i], |code.indent| + 4)
  {
    WithoutBlankEnd(CodeBlocks.BodyOf(lines, p, code))
  }

  lemma FencedReadsAs(body: seq<string>, minIndent: nat, indent: string, info: string, mode: Mode)
    requires AllSpaces(indent) && forall i | 0 <= i < |body| :: InBody(body[i], minIndent)
    ensures IsFine(Fenced(indent, info, Unindented(body, minIndent)), mode) <==> IsFine(body, AcrossFence(mode))
    ensures After(Fenced(indent, info, Unindented(body, minIndent)), mode) ==
            AcrossFence(After(body, AcrossFence(mode)))
  {
    var open, close := indent + "```" + info, indent + "```";
    var inside := Indented(indent, Unindented(body, minIndent));
    FenceLine(indent, info);
    FenceLine(indent, "");
    assert indent + "```" + "" == close;
    forall i | 0 <= i < |body|
      ensures AreOfOneKind(inside[i], body[i])
    {
      MovedLine(body[i], minIndent, indent);
    }
    OneKindReadsAlike(inside, body, AcrossFence(mode));
    FineInParts([open], inside, mode);
    FineInParts([open] + inside, [close], mode);
    assert [open][1..] == [] && [close][1..] == [];
  }

  lemma BlockReadsAs(lines: seq<string>, p: CodeBlocks.Patterns, code: CodeBlocks.Code, mode: Mode)
    requires lines != [] && AllSpaces(code.indent)
    ensures IsFine(CodeBlocks.BlockOf(lines, p, code), mode) <==> IsFine(CodeOf(lines, p, code), AcrossFence(mode))
    ensures After(CodeBlocks.BlockOf(lines, p, code), mode) ==
            AcrossFence(After(CodeOf(lines, p, code), AcrossFence(mode)))
  {
    var n, title := |code.indent| + 4, CodeBlocks.TitleOf(lines[1..], p, "");
    TrimmedIs(CodeBlocks.BodyOf(lines, p, code), n);
    FencedReadsAs(CodeOf(lines, p, code), n, code.indent, CodeBlocks.InfoOf(code, title), mode);
  }

  /** The same question about the docstring itself: a directive counts as two fence lines around its code. */
  predicate IsFineBefore(lines: seq<string>, p: CodeBlocks.Patterns, mode: Mode)
    decreases |lines|
  {
    if lines == [] then true
    else
      match p.code(lines[0])
      case None =>
        && !(IsPrompt(lines[0]) && (mode == Exposed || mode == Lost))
        && IsFineBefore(lines[1..], p, Next(mode, lines[0]))
      case Some(code) =>
        var body, inside := CodeOf(lines, p, code), AcrossFence(mode);
        IsFine(body, inside) && IsFineBefore(CodeBlocks.AfterBlock(lines, p, code), p, AcrossFence(After(body, inside)))
  }

  lemma {:induction false} CodePassReadsAs(lines: seq<string>, p: CodeBlocks.Patterns, mode: Mode)
    requires CodeBlocks.IsSound(p)
    ensures IsFine(CodeBlocks.Convert(lines, p), mode) <==> IsFineBefore(lines, p, mode)
    decreases |lines|
  {
    if lines != [] {
      match p.code(lines[0]) {
        case None =>
          CodePassReadsAs(lines[1..], p, Next(mode, lines[0]));
          assert CodeBlocks.Convert(lines, p)[1..] == CodeBlocks.Convert(lines[1..], p);
        case Some(code) =>
          var block, rest := CodeBlocks.BlockOf(lines, p, code), CodeBlocks.AfterBlock(lines, p, code);
          BlockReadsAs(lines, p, code, mode);
          FineInParts(block, CodeBlocks.Convert(rest, p), mode);
          CodePassReadsAs(rest, p, After(block, mode));
      }
    }
  }

  /** Both passes leave every prompt inside a fence exactly when the docstring's own lines say so. */
  lemma BothPassesFenceIff(lines: seq<string>, p: CodeBlocks.Patterns)
    requires CodeBlocks.IsSound(p)
    ensures PromptsFenced(Convert(CodeBlocks.Convert(lines, p), false), false) <==> IsFineBefore(lines, p, Outside)
  {
    PromptsFencedIff(CodeBlocks.Convert(lines, p));
    CodePassReadsAs(lines, p, Outside);
  }

  // ---------------------------------------------------------------------------
  // Docstrings without fences of their own
  // ---------------------------------------------------------------------------

  predicate NoPrompt(lines: seq<string>) {
    forall i | 0 <= i < |lines| :: !IsPrompt(lines[i])
  }

  predicate HasBlank(lines: seq<string>) {
    exists i | 0 <= i < |lines| :: IsBlank(lines[i])
  }

  /**
   A directive in a doctest block, that is behind a prompt and with no blank line between them,
   must have no prompt in its code; and if its code has a blank line, no prompt may follow at all.
   */
  predicate BlocksAreSpared(lines: seq<string>, p: CodeBlocks.Patterns, inBlock: bool)
    decreases |lines|
  {
    if lines == [] then true
    else
      match p.code(lines[0])
      case None => BlocksAreSpared(lines[1..], p, !IsBlank(lines[0]) && (inBlock || IsPrompt(lines[0])))
      case Some(code) =>
        var body, rest := CodeOf(lines, p, code), CodeBlocks.AfterBlock(lines, p, code);
        if !inBlock then BlocksAreSpared(rest, p, false)
        else
          && NoPrompt(body)
          && if HasBlank(body) then NoPrompt(CodeBlocks.Payload(rest, p)) else BlocksAreSpared(rest, p, true)
  }

  lemma {:induction false} FenceFreeInFence(body: seq<string>)
    requires NoFence(body)
    ensures IsFine(body, InFence) && After(body, InFence) == InFence
  {
    if body != [] {
      FenceFreeInFence(body[1..]);
    }
  }

  lemma {:induction false} LostIff(lines: seq<string>)
    ensures (IsFine(lines, Lost) <==> NoPrompt(lines)) && After(lines, Lost) == Lost
  {
    if lines != [] {
      LostIff(lines[1..]);
      assert NoPrompt(lines) <==> !IsPrompt(lines[0]) && NoPrompt(lines[1..]) by {
        assert forall i | 1 <= i < |lines| :: lines[i] == lines[1..][i - 1];
      }
    }
  }

  lemma {:induction false} FenceFreeExposed(body: seq<string>)
    requires NoFence(body)
    ensures IsFine(body, Exposed) <==> NoPrompt(body)
    ensures After(body, Exposed) == if HasBlank(body) then Lost else Exposed
  {
    if body != [] {
      assert forall i | 1 <= i < |body| :: body[i] == body[1..][i - 1];
      if IsBlank(body[0]) {
        BlankLines(body[0]);
        LostIff(body[1..]);
      } else {
        FenceFreeExposed(body[1..]);
        assert HasBlank(body[1..]) <==> HasBlank(body);
      }
      assert NoPrompt(body) <==> !IsPrompt(body[0]) && NoPrompt(body[1..]);
    }
  }

  lemma {:induction false} NoPromptAtBlankEnd(lines: seq<string>)
    ensures NoPrompt(lines) <==> NoPrompt(WithoutBlankEnd(lines))
  {
    if lines != [] && IsBlank(lines[|lines| - 1]) {
      BlankLines(lines[|lines| - 1]);
      NoPromptAtBlankEnd(lines[..|lines| - 1]);
    }
  }

  lemma NoPromptInParts(a: seq<string>, b: seq<string>)
    ensures NoPrompt(a + b) <==> NoPrompt(a) && NoPrompt(b)
  {
    assert forall i | 0 <= i < |b| :: (a + b)[|a| + i] == b[i];
    assert forall i | 0 <= i < |a| :: (a + b)[i] == a[i];
  }

  lemma {:induction false} LostBeforeIff(lines: seq<string>, p: CodeBlocks.Patterns)
    ensures IsFineBefore(lines, p, Lost) <==> NoPrompt(CodeBlocks.Payload(lines, p))
    decreases |lines|
  {
    if lines != [] {
      match p.code(lines[0]) {
        case None =>
          LostBeforeIff(lines[1..], p);
          assert Next(Lost, lines[0]) == Lost;
          NoPromptInParts([lines[0]], CodeBlocks.Payload(lines[1..], p));
          assert NoPrompt([lines[0]]) <==> !IsPrompt([lines[0]][0]);
        case Some(code) =>
          var body, rest := CodeBlocks.BodyOf(lines, p, code), CodeBlocks.AfterBlock(lines, p, code);
          LostBeforeIff(rest, p);
          NoPromptAtBlankEnd(body);
          LostIff(CodeOf(lines, p, code));
          NoPromptInParts(body, CodeBlocks.Payload(rest, p));
      }
    }
  }

  lemma {:induction false} OptionsWithoutFence(lines: seq<string>, p: CodeBlocks.Patterns)
    requires NoFence(lines)
    ensures NoFence(CodeBlocks.AfterOptions(lines, p))
  {
    if lines != [] && p.isOption(lines[0]) {
      OptionsWithoutFence(lines[1..], p);
    }
  }

  lemma PartsWithoutFence(lines: seq<string>, p: CodeBlocks.Patterns, code: CodeBlocks.Code)
    requires lines != [] && NoFence(lines)
    ensures NoFence(CodeOf(lines, p, code)) && NoFence(CodeBlocks.AfterBlock(lines, p, code))
  {
    var body, rest := CodeBlocks.BodyOf(lines, p, code), CodeBlocks.AfterBlock(lines, p, code);
    OptionsWithoutFence(lines[1..], p);
    var head := CodeBlocks.AfterHead(lines, p);
    assert NoFence(head) && head == body + rest;
    assert forall i | 0 <= i < |rest| :: rest[i] == head[|body| + i];
    assert forall i | 0 <= i < |body| :: body[i] == head[i];
  }

  lemma {:induction false} SparedIff(lines: seq<string>, p: CodeBlocks.Patterns, inBlock: bool)
    requires NoFence(lines)
    ensures IsFineBefore(lines, p, if inBlock then InBlock else Outside) <==> BlocksAreSpared(lines, p, inBlock)
    decreases |lines|
  {
    if lines != [] {
      match p.code(lines[0]) {
        case None =>
          SparedIff(lines[1..], p, !IsBlank(lines[0]) && (inBlock || IsPrompt(lines[0])));
        case Some(code) =>
          var body, rest := CodeOf(lines, p, code), CodeBlocks.AfterBlock(lines, p, code);
          PartsWithoutFence(lines, p, code);
          if inBlock {
            FenceFreeExposed(body);
            LostBeforeIff(rest, p);
            SparedIff(rest, p, true);
          } else {
            FenceFreeInFence(body);
            SparedIff(rest, p, false);
          }
      }
    }
  }

  /** Without fences in the docstring only directives inside doctest blocks can do harm, and this is when they do. */
  lemma FenceFreeDocstringIff(lines: seq<string>, p: CodeBlocks.Patterns)
    requires CodeBlocks.IsSound(p) && NoFence(lines)
    ensures PromptsFenced(Convert(CodeBlocks.Convert(lines, p), false), false) <==> BlocksAreSpared(lines, p, false)
  {
    BothPassesFenceIff(lines, p);
    SparedIff(lines, p, false);
  }

  /** A code directive straight under a prompt, with a prompt in its code. */
  lemma PromptAboveCodeIsLost(prompt: string, directive: string, line: string, p: CodeBlocks.Patterns)
    requires CodeBlocks.IsSound(p) && IsPrompt(prompt) && p.code(prompt).None? && p.code(directive).Some?
    requires IsPrompt(line) && !p.isOption(line) && IndentOf(line) >= |p.code(directive).value.indent| + 4
    ensures !PromptsFenced(Convert(CodeBlocks.Convert([prompt, directive, line], p), false), false)
  {
    var rest, code := [directive, line], p.code(directive).value;
    PromptLines(prompt);
    PromptLines(line);
    assert [prompt, directive, line][1..] == rest && rest[1..] == [line] && [line][1..] == [];
    assert CodeBlocks.AfterHead(rest, p) == [line];
    assert BodyLength([line], |code.indent| + 4) == 1;
    assert CodeOf(rest, p, code) == [line];
    assert !IsFine([line], Exposed);
    BothPassesFenceIff([prompt, directive, line], p);
  }
}
