/**
 The pass that wraps doctest blocks of a docstring in fenced code blocks. A block starts at
 a prompt outside every fence and ends before the next blank line.
 */
module Doctests {
  import opened Sequences
  import opened Text

  predicate IsFence(line: string) {
    "```" <= LStrip(line)
  }

  predicate IsPrompt(line: string) {
    ">>>" <= LStrip(line)
  }

  function Opening(prompt: string): string {
    prompt[..IndentOf(prompt)] + "```python"
  }

  function Closing(prompt: string): string {
    prompt[..IndentOf(prompt)] + "```"
  }

  /** The number of lines before the first blank one. */
  function BlockLength(lines: seq<string>): (n: nat)
    ensures n <= |lines|
    ensures forall i | 0 <= i < n :: !IsBlank(lines[i])
    ensures n < |lines| ==> IsBlank(lines[n])
  {
    if lines == [] || IsBlank(lines[0]) then 0 else 1 + BlockLength(lines[1..])
  }

  lemma PromptLines(line: string)
    requires IsPrompt(line)
    ensures !IsBlank(line) && !IsFence(line)
    ensures IsFence(Opening(line)) && IsFence(Closing(line)) && !IsPrompt(Opening(line)) && !IsPrompt(Closing(line))
  {
    LStripIsSuffix(line);
    assert LStrip(line)[0] == '>';
    assert "```python"[0] == '`' && "```"[0] == '`';
    LStripOfIndented(line[..IndentOf(line)], "```python");
    LStripOfIndented(line[..IndentOf(line)], "```");
    assert "```python"[..3] == "```";
  }

  /** The fences stand as deep as the prompt, and the first one says that what follows is Python. */
  lemma FencesStandAtPrompt(line: string)
    requires IsPrompt(line)
    ensures LStrip(Opening(line)) == "```python" && LStrip(Closing(line)) == "```"
    ensures IndentOf(Opening(line)) == IndentOf(line) == IndentOf(Closing(line))
  {
    LStripIsSuffix(line);
    assert "```python"[0] == '`' && "```"[0] == '`';
    LStripOfIndented(line[..IndentOf(line)], "```python");
    LStripOfIndented(line[..IndentOf(line)], "```");
  }

  predicate StartsBlock(line: string, inFence: bool) {
    !IsFence(line) && IsPrompt(line) && !inFence
  }

  lemma BlockIsNotEmpty(lines: seq<string>)
    requires lines != [] && IsPrompt(lines[0])
    ensures 1 <= BlockLength(lines)
  {
    PromptLines(lines[0]);
  }

  /** The converted text, given whether it starts inside a fence. */
  function Convert(lines: seq<string>, inFence: bool): seq<string>
    decreases |lines|
  {
    if lines == [] then []
    else if StartsBlock(lines[0], inFence) then
      BlockIsNotEmpty(lines);
      var n := BlockLength(lines);
      [Opening(lines[0])] + lines[..n] + [Closing(lines[0])] + Convert(lines[n..], false)
    else [lines[0]] + Convert(lines[1..], if IsFence(lines[0]) then !inFence else inFence)
  }

  /** How many blocks are wrapped: one entry of the change list for each. */
  function Blocks(lines: seq<string>, inFence: bool): nat
    decreases |lines|
  {
    if lines == [] then 0
    else if StartsBlock(lines[0], inFence) then
      BlockIsNotEmpty(lines);
      1 + Blocks(lines[BlockLength(lines)..], false)
    else Blocks(lines[1..], if IsFence(lines[0]) then !inFence else inFence)
  }

  /** All non-blank lines from `start` on. */
  method CollectBlock(lines: seq<string>, start: nat) returns (block: seq<string>, i: nat)
    requires start <= |lines|
    ensures block == lines[start..][..BlockLength(lines[start..])]
    ensures i == start + BlockLength(lines[start..])
  {
    i, block := start, [];
    while i < |lines| && !IsBlank(lines[i])
      invariant start <= i <= |lines|
      invariant block == lines[start..i]
      invariant i - start <= BlockLength(lines[start..])
    {
      assert lines[start..][i - start] == lines[i];
      block := block + [lines[i]];
      i := i + 1;
    }
    assert i < |lines| ==> lines[start..][i - start] == lines[i];
  }

  method ConvertDoctests(lines: seq<string>) returns (result: seq<string>, changes: seq<string>)
    ensures result == Convert(lines, false)
    ensures |changes| == Blocks(lines, false)
  {
    result, changes := [], [];
    var i, inFence := 0, false;
    while i < |lines|
      invariant 0 <= i <= |lines|
      invariant Convert(lines, false) == result + Convert(lines[i..], inFence)
      invariant Blocks(lines, false) == |changes| + Blocks(lines[i..], inFence)
    {
      var line := lines[i];
      if IsFence(line) {
        PlainStep(lines, i, inFence, result);
        inFence := !inFence;
        result := result + [line];
        i := i + 1;
      } else if IsPrompt(line) && !inFence {
        BlockStep(lines, i, result);
        var block, next := CollectBlock(lines, i);
        i := next;
        result := result + [Opening(line)];
        result := result + block;
        result := result + [Closing(line)];
        changes := changes + ["doctest: >>> block"];
      } else {
        PlainStep(lines, i, inFence, result);
        result := result + [line];
        i := i + 1;
      }
    }
  }

  lemma PlainStep(lines: seq<string>, i: nat, inFence: bool, result: seq<string>)
    requires i < |lines| && !StartsBlock(lines[i], inFence)
    ensures var next := if IsFence(lines[i]) then !inFence else inFence;
            && result + Convert(lines[i..], inFence) == result + [lines[i]] + Convert(lines[i + 1..], next)
            && Blocks(lines[i..], inFence) == Blocks(lines[i + 1..], next)
  {
    assert lines[i..][0] == lines[i] && lines[i..][1..] == lines[i + 1..];
  }

  lemma BlockStep(lines: seq<string>, i: nat, result: seq<string>)
    requires i < |lines| && StartsBlock(lines[i], false)
    ensures var n := BlockLength(lines[i..]);
            && result + Convert(lines[i..], false) ==
                 result + [Opening(lines[i])] + lines[i..][..n] + [Closing(lines[i])] + Convert(lines[i + n..], false)
            && Blocks(lines[i..], false) == 1 + Blocks(lines[i + n..], false)
  {
    var rest := lines[i..];
    BlockIsNotEmpty(rest);
    assert rest[0] == lines[i] && rest[BlockLength(rest)..] == lines[i + BlockLength(rest)..];
    WrappedAppends(result, lines[i], rest[..BlockLength(rest)], Convert(rest[BlockLength(rest)..], false));
  }

  lemma WrappedAppends(result: seq<string>, line: string, block: seq<string>, rest: seq<string>)
    ensures result + ([Opening(line)] + block + [Closing(line)] + rest) ==
            result + [Opening(line)] + block + [Closing(line)] + rest
  {
  }

  // ---------------------------------------------------------------------------
  // Reading the result
  // ---------------------------------------------------------------------------

  /** Whether a text that starts inside a fence or not ends inside one. */
  function FenceState(lines: seq<string>, inFence: bool): bool {
    if lines == [] then inFence else FenceState(lines[1..], if IsFence(lines[0]) then !inFence else inFence)
  }

  /** Every prompt is inside a fence. */
  predicate PromptsFenced(lines: seq<string>, inFence: bool) {
    lines != [] ==>
      && (IsPrompt(lines[0]) && !IsFence(lines[0]) ==> inFence)
      && PromptsFenced(lines[1..], if IsFence(lines[0]) then !inFence else inFence)
  }

  /** Inside its new fence, a block shows all its prompts and does not leave the fence for good. */
  predicate Balanced(block: seq<string>) {
    PromptsFenced(block, true) && FenceState(block, true)
  }

  predicate AllBalanced(lines: seq<string>, inFence: bool)
    decreases |lines|
  {
    if lines == [] then true
    else if StartsBlock(lines[0], inFence) then
      BlockIsNotEmpty(lines);
      Balanced(lines[..BlockLength(lines)]) && AllBalanced(lines[BlockLength(lines)..], false)
    else AllBalanced(lines[1..], if IsFence(lines[0]) then !inFence else inFence)
  }

  lemma {:induction false} ScanAppend(a: seq<string>, b: seq<string>, inFence: bool)
    ensures FenceState(a + b, inFence) == FenceState(b, FenceState(a, inFence))
    ensures PromptsFenced(a + b, inFence) <==> PromptsFenced(a, inFence) && PromptsFenced(b, FenceState(a, inFence))
  {
    if a == [] {
      assert a + b == b;
    } else {
      assert (a + b)[1..] == a[1..] + b;
      ScanAppend(a[1..], b, if IsFence(a[0]) then !inFence else inFence);
    }
  }

  /** A text read with the opposite state ends in the opposite state. */
  lemma {:induction false} OppositeState(lines: seq<string>, inFence: bool)
    ensures FenceState(lines, !inFence) == !FenceState(lines, inFence)
  {
    if lines != [] {
      OppositeState(lines[1..], if IsFence(lines[0]) then !inFence else inFence);
    }
  }

  lemma WrappedBlock(prompt: string, block: seq<string>, rest: seq<string>, inFence: bool)
    requires IsPrompt(prompt) && block != [] && block[0] == prompt
    ensures var text := [Opening(prompt)] + block + [Closing(prompt)] + rest;
            && FenceState(text, inFence) == FenceState(rest, !FenceState(block, !inFence))
            && (PromptsFenced(text, inFence) <==>
                PromptsFenced(block, !inFence) && PromptsFenced(rest, !FenceState(block, !inFence)))
            && (inFence ==> !PromptsFenced(text, inFence))
  {
    PromptLines(prompt);
    var tail := block + ([Closing(prompt)] + rest);
    var text := [Opening(prompt)] + block + [Closing(prompt)] + rest;
    assert text == [Opening(prompt)] + tail && text[1..] == tail;
    ScanAppend(block, [Closing(prompt)] + rest, !inFence);
    assert ([Closing(prompt)] + rest)[1..] == rest;
  }

  /** A block's own lines carry the fence state past the block. */
  lemma BlockState(lines: seq<string>, n: nat, inFence: bool)
    requires n <= |lines|
    ensures FenceState(lines, inFence) == FenceState(lines[n..], FenceState(lines[..n], inFence))
  {
    ScanAppend(lines[..n], lines[n..], inFence);
    assert lines[..n] + lines[n..] == lines;
  }

  /** What the pass is for, seen from a reader in state `seen`. */
  predicate WellFenced(lines: seq<string>, inFence: bool, seen: bool) {
    PromptsFenced(Convert(lines, inFence), seen) &&
      FenceState(Convert(lines, inFence), seen) == SkippedState(lines, inFence)
  }

  /** The state at the end of the text, with the lines of wrapped blocks left out. */
  function SkippedState(lines: seq<string>, inFence: bool): bool
    decreases |lines|
  {
    if lines == [] then inFence
    else if StartsBlock(lines[0], inFence) then
      BlockIsNotEmpty(lines);
      SkippedState(lines[BlockLength(lines)..], false)
    else SkippedState(lines[1..], if IsFence(lines[0]) then !inFence else inFence)
  }

  /**
   A reader that is in the right state finds the result well fenced exactly when all blocks are
   balanced; one in the wrong state never does.
   */
  lemma {:induction false} ReaderSees(lines: seq<string>, inFence: bool, seen: bool)
    ensures WellFenced(lines, inFence, seen) <==> seen == inFence && AllBalanced(lines, inFence)
    decreases |lines|
  {
    if lines == [] {
    } else if StartsBlock(lines[0], inFence) {
      BlockIsNotEmpty(lines);
      var n := BlockLength(lines);
      var block, rest := lines[..n], lines[n..];
      WrappedBlock(lines[0], block, Convert(rest, false), seen);
      if !seen {
        ReaderSees(rest, false, !FenceState(block, true));
      }
    } else {
      var next := if IsFence(lines[0]) then !inFence else inFence;
      var nextSeen := if IsFence(lines[0]) then !seen else seen;
      ReaderSees(lines[1..], next, nextSeen);
      var converted := Convert(lines, inFence);
      assert converted[0] == lines[0] && converted[1..] == Convert(lines[1..], next);
      if seen && !inFence {
        assert !WellFenced(lines[1..], next, nextSeen);
      }
    }
  }

  /**
   Every prompt of the result is fenced, and the text after the last block is read as before,
   exactly when every block is balanced.
   */
  lemma FencingWorksIffBalanced(lines: seq<string>)
    ensures PromptsFenced(Convert(lines, false), false) &&
            FenceState(Convert(lines, false), false) == SkippedState(lines, false)
            <==> AllBalanced(lines, false)
  {
    ReaderSees(lines, false, false);
  }

  predicate NoFence(lines: seq<string>) {
    forall i | 0 <= i < |lines| :: !IsFence(lines[i])
  }

  predicate BlocksWithoutFences(lines: seq<string>, inFence: bool)
    decreases |lines|
  {
    if lines == [] then true
    else if StartsBlock(lines[0], inFence) then
      BlockIsNotEmpty(lines);
      NoFence(lines[..BlockLength(lines)]) && BlocksWithoutFences(lines[BlockLength(lines)..], false)
    else BlocksWithoutFences(lines[1..], if IsFence(lines[0]) then !inFence else inFence)
  }

  lemma {:induction false} NoFenceKeepsState(lines: seq<string>, inFence: bool)
    requires NoFence(lines)
    ensures FenceState(lines, inFence) == inFence && (inFence ==> PromptsFenced(lines, inFence))
  {
    if lines != [] {
      NoFenceKeepsState(lines[1..], inFence);
    }
  }

  /** Blocks that contain no fence line are balanced, and the open or closed state at the end is the input's own. */
  lemma {:induction false} FenceFreeBlocksAreBalanced(lines: seq<string>, inFence: bool)
    requires BlocksWithoutFences(lines, inFence)
    ensures AllBalanced(lines, inFence) && SkippedState(lines, inFence) == FenceState(lines, inFence)
    decreases |lines|
  {
    if lines == [] {
    } else if StartsBlock(lines[0], inFence) {
      BlockIsNotEmpty(lines);
      var n := BlockLength(lines);
      NoFenceKeepsState(lines[..n], true);
      NoFenceKeepsState(lines[..n], false);
      BlockState(lines, n, false);
      FenceFreeBlocksAreBalanced(lines[n..], false);
    } else {
      FenceFreeBlocksAreBalanced(lines[1..], if IsFence(lines[0]) then !inFence else inFence);
    }
  }

  lemma FenceFreeBlocksAreFenced(lines: seq<string>)
    requires BlocksWithoutFences(lines, false)
    ensures PromptsFenced(Convert(lines, false), false)
    ensures FenceState(Convert(lines, false), false) == FenceState(lines, false)
  {
    FenceFreeBlocksAreBalanced(lines, false);
    FencingWorksIffBalanced(lines);
  }

  /** The pass leaves a text alone exactly when all its prompts are fenced already. */
  lemma {:induction false} UnchangedIffFenced(lines: seq<string>, inFence: bool)
    ensures PromptsFenced(lines, inFence) <==> Blocks(lines, inFence) == 0
    ensures Blocks(lines, inFence) == 0 ==> Convert(lines, inFence) == lines
    decreases |lines|
  {
    if lines != [] && !StartsBlock(lines[0], inFence) {
      UnchangedIffFenced(lines[1..], if IsFence(lines[0]) then !inFence else inFence);
    }
  }

  /**
   Whether a reader who is in state `seen` where the pass is in state `inFence` finds every
   prompt of the result inside a fence: block by block and line by line of the input.
   */
  predicate ReadsFenced(lines: seq<string>, inFence: bool, seen: bool)
    decreases |lines|
  {
    if lines == [] then true
    else if StartsBlock(lines[0], inFence) then
      BlockIsNotEmpty(lines);
      var block := lines[..BlockLength(lines)];
      PromptsFenced(block, !seen) && ReadsFenced(lines[BlockLength(lines)..], false, !FenceState(block, !seen))
    else if IsFence(lines[0]) then ReadsFenced(lines[1..], !inFence, !seen)
    else (IsPrompt(lines[0]) ==> seen) && ReadsFenced(lines[1..], inFence, seen)
  }

  lemma {:induction false} ReadsFencedIs(lines: seq<string>, inFence: bool, seen: bool)
    ensures ReadsFenced(lines, inFence, seen) <==> PromptsFenced(Convert(lines, inFence), seen)
    decreases |lines|
  {
    if lines == [] {
    } else if StartsBlock(lines[0], inFence) {
      BlockIsNotEmpty(lines);
      var n := BlockLength(lines);
      ReadsFencedIs(lines[n..], false, !FenceState(lines[..n], !seen));
      WrappedBlock(lines[0], lines[..n], Convert(lines[n..], false), seen);
    } else {
      var next := if IsFence(lines[0]) then !inFence else inFence;
      ReadsFencedIs(lines[1..], next, if IsFence(lines[0]) then !seen else seen);
      assert Convert(lines, inFence)[1..] == Convert(lines[1..], next);
    }
  }

  /** Running the pass twice is running it once exactly when every prompt reads as fenced after the first run. */
  lemma IdempotentIff(lines: seq<string>)
    ensures Convert(Convert(lines, false), false) == Convert(lines, false) <==> ReadsFenced(lines, false, false)
    ensures Blocks(Convert(lines, false), false) == 0 <==> ReadsFenced(lines, false, false)
  {
    ReadsFencedIs(lines, false, false);
    UnchangedIffFenced(Convert(lines, false), false);
    NothingIsLost(Convert(lines, false), false);
  }

  /** Balanced blocks are enough for that. */
  lemma Idempotent(lines: seq<string>)
    requires AllBalanced(lines, false)
    ensures Convert(Convert(lines, false), false) == Convert(lines, false)
    ensures Blocks(Convert(lines, false), false) == 0
  {
    FencingWorksIffBalanced(lines);
    UnchangedIffFenced(Convert(lines, false), false);
  }

  /**
   They are not necessary: one fence line under a prompt leaves the block unbalanced, yet a
   second run does nothing.
   */
  lemma UnbalancedYetIdempotent(prompt: string, fence: string)
    requires IsPrompt(prompt) && IsFence(fence) && !IsBlank(fence)
    ensures !AllBalanced([prompt, fence], false)
    ensures Convert(Convert([prompt, fence], false), false) == Convert([prompt, fence], false)
  {
    var lines := [prompt, fence];
    PromptLines(prompt);
    TwoLineBlock(prompt, fence);
    assert lines[..2] == lines && lines[2..] == [];
    assert FenceState([fence], true) == false;
    IdempotentIff(lines);
  }

  lemma TwoLineBlock(prompt: string, fence: string)
    requires IsPrompt(prompt) && IsFence(fence) && !IsBlank(fence)
    ensures BlockLength([prompt, fence]) == 2
    ensures PromptsFenced([prompt, fence], true) && !FenceState([prompt, fence], true)
  {
    PromptLines(prompt);
    assert [prompt, fence][1..] == [fence] && [fence][1..] == [];
    assert FenceState([fence], true) == FenceState([], false);
  }

  /** A prompt behind a fence line of its own block ends up outside every fence. */
  lemma PromptBehindFenceIsLost(prompt: string, fence: string, second: string)
    requires IsPrompt(prompt) && IsFence(fence) && !IsBlank(fence) && IsPrompt(second)
    ensures !PromptsFenced(Convert([prompt, fence, second], false), false)
  {
    var lines := [prompt, fence, second];
    PromptLines(prompt);
    PromptLines(second);
    assert lines[1..] == [fence, second] && lines[1..][1..] == [second] && [second][1..] == [];
    assert BlockLength(lines) == 3 && lines[..3] == lines by {
      assert BlockLength([second]) == 1 && BlockLength([fence, second]) == 2;
    }
    assert !PromptsFenced([second], false);
    assert !PromptsFenced(lines, true);
    ReadsFencedIs(lines, false, false);
  }

  lemma WrappingLosesNothing(open: string, block: seq<string>, close: string, rest: seq<string>, out: seq<string>)
    requires Subsequence(rest, out)
    ensures Subsequence(block + rest, [open] + block + [close] + out)
    ensures |[open] + block + [close] + out| == |block| + |out| + 2
  {
    SubsequenceSkip(rest, close, out);
    SubsequencePrefix(block, rest, [close] + out);
    SubsequenceSkip(block + rest, open, block + ([close] + out));
    assert [open] + (block + ([close] + out)) == [open] + block + [close] + out;
  }

  /** No line is lost, changed or reordered, and each block gains exactly two. */
  lemma {:induction false} NothingIsLost(lines: seq<string>, inFence: bool)
    ensures Subsequence(lines, Convert(lines, inFence))
    ensures |Convert(lines, inFence)| == |lines| + 2 * Blocks(lines, inFence)
    decreases |lines|
  {
    if lines == [] {
    } else if StartsBlock(lines[0], inFence) {
      BlockIsNotEmpty(lines);
      var n := BlockLength(lines);
      NothingIsLost(lines[n..], false);
      WrappingLosesNothing(Opening(lines[0]), lines[..n], Closing(lines[0]), lines[n..], Convert(lines[n..], false));
      assert lines[..n] + lines[n..] == lines;
    } else {
      var next := if IsFence(lines[0]) then !inFence else inFence;
      NothingIsLost(lines[1..], next);
      SubsequencePrefix([lines[0]], lines[1..], Convert(lines[1..], next));
      assert [lines[0]] + lines[1..] == lines;
    }
  }
}
