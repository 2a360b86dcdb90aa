/**
 The two passes that take superfluous indentation out of converted docstrings: numpy-style
 sections, and bullet lists under a label. Both report the blocks they moved.
 */
module Dedent {
  import opened Text

  /**
   Lines `start` to `end` were moved left by `extra`, because line `first` stood that much deeper
   than line `anchor`.
   */
  datatype Block = Block(anchor: nat, first: nat, start: nat, end: nat, extra: nat)

  predicate BeginsWithSpaces(line: string, extra: nat) {
    extra <= |line| && forall i | 0 <= i < extra :: line[i] == ' '
  }

  function Dedented(line: string, extra: nat, blanksToo: bool): string {
    if BeginsWithSpaces(line, extra) && (blanksToo || !IsBlank(line)) then line[extra..] else line
  }

  predicate WellPlaced(lines: seq<string>, b: Block) {
    && b.anchor < b.start <= b.first < b.end <= |lines| && b.extra > 0
    && !IsBlank(lines[b.anchor]) && !IsBlank(lines[b.first])
    && IndentOf(lines[b.first]) == IndentOf(lines[b.anchor]) + b.extra
  }

  predicate InBlock(b: Block, k: int) {
    b.start <= k < b.end
  }

  /** Line `k` after the reported moves: the block that holds it decides, and outside all blocks nothing happens. */
  function LineAfter(lines: seq<string>, blocks: seq<Block>, blanksToo: bool, k: nat): string
    requires k < |lines|
  {
    if blocks == [] then lines[k]
    else if InBlock(blocks[|blocks| - 1], k) then Dedented(lines[k], blocks[|blocks| - 1].extra, blanksToo)
    else LineAfter(lines, blocks[..|blocks| - 1], blanksToo, k)
  }

  /** The first visible line from `k` on, or the end. */
  function NextVisible(lines: seq<string>, k: nat): (m: nat)
    requires k <= |lines|
    ensures k <= m <= |lines| && (m < |lines| ==> !IsBlank(lines[m]))
    ensures forall n | k <= n < m :: IsBlank(lines[n])
    decreases |lines| - k
  {
    if k < |lines| && IsBlank(lines[k]) then NextVisible(lines, k + 1) else k
  }

  method SkipBlanks(lines: seq<string>, start: nat) returns (j: nat)
    requires start <= |lines|
    ensures j == NextVisible(lines, start)
  {
    j := start;
    while j < |lines| && IsBlank(lines[j])
      invariant start <= j <= |lines|
      invariant NextVisible(lines, start) == NextVisible(lines, j)
    {
      j := j + 1;
    }
  }

  predicate Covers(b: Block, k: int) {
    b.anchor <= k < b.end
  }

  /** The blocks lie in the first `i` lines, in order, and do not overlap. */
  predicate Placed(lines: seq<string>, blocks: seq<Block>, i: nat) {
    && (forall a | 0 <= a < |blocks| :: WellPlaced(lines, blocks[a]) && blocks[a].end <= i)
    && (forall a, b | 0 <= a < b < |blocks| :: blocks[a].end <= blocks[b].anchor)
  }

  predicate Explains(lines: seq<string>, out: seq<string>, blocks: seq<Block>, blanksToo: bool, i: nat) {
    && |out| == i <= |lines| && Placed(lines, blocks, i)
    && forall k | 0 <= k < i :: out[k] == LineAfter(lines, blocks, blanksToo, k)
  }

  lemma {:induction false} OutsideBlocks(lines: seq<string>, blocks: seq<Block>, blanksToo: bool, k: nat)
    requires k < |lines| && forall a | 0 <= a < |blocks| :: !InBlock(blocks[a], k)
    ensures LineAfter(lines, blocks, blanksToo, k) == lines[k]
  {
    if blocks != [] {
      OutsideBlocks(lines, blocks[..|blocks| - 1], blanksToo, k);
    }
  }

  lemma {:induction false} InsideBlock(lines: seq<string>, blocks: seq<Block>, blanksToo: bool, i: nat, a: nat, k: nat)
    requires Placed(lines, blocks, i) && a < |blocks| && k < |lines| && InBlock(blocks[a], k)
    ensures LineAfter(lines, blocks, blanksToo, k) == Dedented(lines[k], blocks[a].extra, blanksToo)
  {
    if a < |blocks| - 1 {
      assert WellPlaced(lines, blocks[|blocks| - 1]);
      InsideBlock(lines, blocks[..|blocks| - 1], blanksToo, i, a, k);
    }
  }

  lemma ExplainPlain(lines: seq<string>, out: seq<string>, blocks: seq<Block>, blanksToo: bool, i: nat,
      more: seq<string>)
    requires Explains(lines, out, blocks, blanksToo, i)
    requires i + |more| <= |lines| && more == lines[i..i + |more|]
    ensures Explains(lines, out + more, blocks, blanksToo, i + |more|)
  {
    var longer := out + more;
    forall k | 0 <= k < i + |more|
      ensures longer[k] == LineAfter(lines, blocks, blanksToo, k)
    {
      if k >= i {
        OutsideBlocks(lines, blocks, blanksToo, k);
      }
    }
  }

  lemma ExplainBlock(lines: seq<string>, out: seq<string>, blocks: seq<Block>, blanksToo: bool, block: Block,
      more: seq<string>)
    requires Explains(lines, out, blocks, blanksToo, block.start)
    requires WellPlaced(lines, block) && |more| == block.end - block.start && Placed(lines, blocks, block.anchor)
    requires forall k | 0 <= k < |more| :: more[k] == Dedented(lines[block.start + k], block.extra, blanksToo)
    ensures Explains(lines, out + more, blocks + [block], blanksToo, block.end)
  {
    var longer, all := out + more, blocks + [block];
    assert all[..|all| - 1] == blocks;
    forall k | 0 <= k < block.end
      ensures longer[k] == LineAfter(lines, all, blanksToo, k)
    {
      if k >= block.start {
        assert longer[k] == more[k - block.start];
      }
    }
  }

  // ---------------------------------------------------------------------------
  // Numpy-style sections
  // ---------------------------------------------------------------------------

  /** A header candidate starts with nothing but spaces before its first visible character. */
  predicate IsHeader(line: string) {
    line != "" && if line[0] == ' ' then IsHeader(line[1..]) else !IsSpace(line[0])
  }

  function SkipSpaces(line: string): string {
    if line != "" && line[0] == ' ' then SkipSpaces(line[1..]) else line
  }

  function SkipDashes(line: string): string {
    if line != "" && line[0] == '-' then SkipDashes(line[1..]) else line
  }

  predicate StartsWithThreeDashes(line: string) {
    "---" <= line
  }

  /** Spaces, at least three dashes, and white space up to the end. */
  predicate IsUnderline(line: string) {
    StartsWithThreeDashes(SkipSpaces(line)) && IsBlank(SkipDashes(SkipSpaces(line)))
  }

  lemma {:induction false} HeaderIsNotBlank(line: string)
    requires IsHeader(line)
    ensures !IsBlank(line)
  {
    if line[0] == ' ' {
      HeaderIsNotBlank(line[1..]);
    }
  }

  predicate IsSectionStart(lines: seq<string>, i: nat) {
    && i + 1 < |lines| && IsHeader(lines[i]) && IsUnderline(lines[i + 1])
    && !("-" <= LStrip(lines[i]))
  }

  /** A section ends at a visible line no deeper than its header that is not another rule of dashes. */
  predicate EndsSection(line: string, baseIndent: nat) {
    !IsBlank(line) && IndentOf(line) <= baseIndent && !StartsWithThreeDashes(LStrip(line))
  }

  function SectionEnd(lines: seq<string>, k: nat, baseIndent: nat): (end: nat)
    requires k <= |lines|
    ensures k <= end <= |lines|
    ensures forall n | k <= n < end :: !EndsSection(lines[n], baseIndent)
    ensures end < |lines| ==> EndsSection(lines[end], baseIndent)
    decreases |lines| - k
  {
    if k < |lines| && !EndsSection(lines[k], baseIndent) then SectionEnd(lines, k + 1, baseIndent) else k
  }

  predicate Movable(line: string, extra: nat) {
    !IsBlank(line) && BeginsWithSpaces(line, extra)
  }

  predicate AnyMovable(lines: seq<string>, start: nat, end: nat, extra: nat)
    requires start <= end <= |lines|
  {
    exists k | start <= k < end :: Movable(lines[k], extra)
  }

  /** A section whose first visible line is deeper than the header. */
  predicate OpensDeepSection(lines: seq<string>, i: nat) {
    && IsSectionStart(lines, i) && NextVisible(lines, i + 2) < |lines|
    && IndentOf(lines[NextVisible(lines, i + 2)]) > IndentOf(lines[i])
  }

  /** All there is to know about the deep section that opens at line `i`. */
  function SectionAt(lines: seq<string>, i: nat): Block
    requires OpensDeepSection(lines, i)
  {
    var j := NextVisible(lines, i + 2);
    Block(i, j, i + 2, SectionEnd(lines, i + 2, IndentOf(lines[i])), IndentOf(lines[j]) - IndentOf(lines[i]))
  }

  lemma {:induction false} SectionReaches(lines: seq<string>, k: nat, j: nat, baseIndent: nat)
    requires k <= j < |lines| && forall n | k <= n <= j :: !EndsSection(lines[n], baseIndent)
    ensures j < SectionEnd(lines, k, baseIndent)
    decreases j - k
  {
    if k < j {
      SectionReaches(lines, k + 1, j, baseIndent);
    }
  }

  lemma SectionIsWellPlaced(lines: seq<string>, i: nat)
    requires OpensDeepSection(lines, i)
    ensures WellPlaced(lines, SectionAt(lines, i))
  {
    HeaderIsNotBlank(lines[i]);
    var j := NextVisible(lines, i + 2);
    SectionReaches(lines, i + 2, j, IndentOf(lines[i]));
  }

  /** A deep section in which no line starts with the superfluous spaces: there is nothing to move. */
  predicate IsStuckSection(lines: seq<string>, h: nat) {
    && OpensDeepSection(lines, h)
    && !AnyMovable(lines, h + 2, SectionEnd(lines, h + 2, IndentOf(lines[h])), SectionAt(lines, h).extra)
  }

  predicate ReportedSection(lines: seq<string>, b: Block) {
    OpensDeepSection(lines, b.anchor) && b == SectionAt(lines, b.anchor) && !IsStuckSection(lines, b.anchor)
  }

  /** Line `k` belongs to a reported section or to a stuck one. */
  predicate SectionHandled(lines: seq<string>, changes: seq<Block>, k: nat) {
    || (exists a | 0 <= a < |changes| :: Covers(changes[a], k))
    || (exists h | 0 <= h <= k :: IsStuckSection(lines, h) && k < SectionAt(lines, h).end)
  }

  method CollectSection(lines: seq<string>, start: nat, baseIndent: nat, extra: nat)
    returns (out: seq<string>, end: nat, fixedAny: bool)
    requires start <= |lines| && extra > 0
    ensures end == SectionEnd(lines, start, baseIndent) && |out| == end - start
    ensures forall k | 0 <= k < |out| :: out[k] == Dedented(lines[start + k], extra, false)
    ensures fixedAny <==> AnyMovable(lines, start, end, extra)
  {
    out, end, fixedAny := [], start, false;
    while end < |lines| && !EndsSection(lines[end], baseIndent)
      invariant start <= end <= |lines| && |out| == end - start
      invariant SectionEnd(lines, start, baseIndent) == SectionEnd(lines, end, baseIndent)
      invariant forall k | 0 <= k < |out| :: out[k] == Dedented(lines[start + k], extra, false)
      invariant fixedAny <==> AnyMovable(lines, start, end, extra)
    {
      var line := lines[end];
      if !IsBlank(line) && BeginsWithSpaces(line, extra) {
        out := out + [line[extra..]];
        fixedAny := true;
        assert Movable(lines[end], extra);
      } else {
        out := out + [line];
      }
      end := end + 1;
    }
  }

  lemma NothingMoves(lines: seq<string>, out: seq<string>, start: nat, end: nat, extra: nat)
    requires start <= end <= |lines| && |out| == end - start && !AnyMovable(lines, start, end, extra)
    requires forall k | 0 <= k < |out| :: out[k] == Dedented(lines[start + k], extra, false)
    ensures out == lines[start..end]
  {
    forall k | 0 <= k < |out|
      ensures out[k] == lines[start + k]
    {
      assert !Movable(lines[start + k], extra);
    }
  }

  predicate SectionsHandledBefore(lines: seq<string>, changes: seq<Block>, i: nat) {
    forall k | 0 <= k < i && OpensDeepSection(lines, k) :: SectionHandled(lines, changes, k)
  }

  predicate AllReported(lines: seq<string>, changes: seq<Block>) {
    forall a | 0 <= a < |changes| :: ReportedSection(lines, changes[a])
  }

  lemma MovedSection(lines: seq<string>, out: seq<string>, changes: seq<Block>, i: nat, section: seq<string>)
    requires OpensDeepSection(lines, i) && !IsStuckSection(lines, i)
    requires Explains(lines, out, changes, false, i + 2) && Placed(lines, changes, i)
    requires |section| == SectionAt(lines, i).end - (i + 2)
    requires forall k | 0 <= k < |section| :: section[k] == Dedented(lines[i + 2 + k], SectionAt(lines, i).extra, false)
    ensures Explains(lines, out + section, changes + [SectionAt(lines, i)], false, SectionAt(lines, i).end)
  {
    SectionIsWellPlaced(lines, i);
    ExplainBlock(lines, out, changes, false, SectionAt(lines, i), section);
  }

  lemma UnmovedSection(lines: seq<string>, out: seq<string>, changes: seq<Block>, i: nat, section: seq<string>)
    requires IsStuckSection(lines, i)
    requires Explains(lines, out, changes, false, i + 2)
    requires |section| == SectionAt(lines, i).end - (i + 2)
    requires forall k | 0 <= k < |section| :: section[k] == Dedented(lines[i + 2 + k], SectionAt(lines, i).extra, false)
    ensures Explains(lines, out + section, changes, false, SectionAt(lines, i).end)
  {
    NothingMoves(lines, section, i + 2, SectionAt(lines, i).end, SectionAt(lines, i).extra);
    ExplainPlain(lines, out, changes, false, i + 2, section);
  }

  /** Header, rule and the whole section behind them, moved where it can be. */
  method FixSection(lines: seq<string>, out: seq<string>, changes: seq<Block>, i: nat, j: nat)
    returns (newOut: seq<string>, newChanges: seq<Block>, end: nat)
    requires OpensDeepSection(lines, i) && j == NextVisible(lines, i + 2)
    requires Explains(lines, out, changes, false, i) && AllReported(lines, changes) &&
             SectionsHandledBefore(lines, changes, i)
    ensures i < end <= |lines| && Explains(lines, newOut, newChanges, false, end)
    ensures AllReported(lines, newChanges) && SectionsHandledBefore(lines, newChanges, end)
  {
    var baseIndent := IndentOf(lines[i]);
    var extra := IndentOf(lines[j]) - baseIndent;
    ExplainPlain(lines, out, changes, false, i, lines[i..i + 2]);
    newOut, newChanges := out + lines[i..i + 2], changes;
    var section, sectionEnd, fixedAny := CollectSection(lines, i + 2, baseIndent, extra);
    end := sectionEnd;
    if fixedAny {
      MovedSection(lines, newOut, changes, i, section);
      newChanges := changes + [Block(i, j, i + 2, end, extra)];
    } else {
      UnmovedSection(lines, newOut, changes, i, section);
    }
    SectionsStayHandled(lines, changes, newChanges, i, end);
    newOut := newOut + section;
  }

  /**
   Reports exactly the deep sections with something to move, from the first on and skipping what
   earlier sections contain.
   */
  method FixNumpyParams(lines: seq<string>) returns (out: seq<string>, changes: seq<Block>)
    ensures Explains(lines, out, changes, false, |lines|)
    ensures forall a | 0 <= a < |changes| :: ReportedSection(lines, changes[a])
    ensures forall k | 0 <= k < |lines| && OpensDeepSection(lines, k) :: SectionHandled(lines, changes, k)
  {
    out, changes := [], [];
    var i := 0;
    while i < |lines|
      invariant 0 <= i <= |lines|
      invariant Explains(lines, out, changes, false, i)
      invariant AllReported(lines, changes) && SectionsHandledBefore(lines, changes, i)
    {
      if IsSectionStart(lines, i) {
        var j := SkipBlanks(lines, i + 2);
        if j < |lines| && IndentOf(lines[j]) > IndentOf(lines[i]) {
          out, changes, i := FixSection(lines, out, changes, i, j);
          continue;
        }
      }
      ExplainPlain(lines, out, changes, false, i, [lines[i]]);
      out := out + [lines[i]];
      i := i + 1;
    }
  }

  lemma SectionsStayHandled(lines: seq<string>, before: seq<Block>, after: seq<Block>, i: nat, end: nat)
    requires before <= after && i <= end
    requires forall k | 0 <= k < i && OpensDeepSection(lines, k) :: SectionHandled(lines, before, k)
    requires || (IsStuckSection(lines, i) && SectionAt(lines, i).end == end)
             || (|after| == |before| + 1 && after[|before|].anchor == i && after[|before|].end == end)
    ensures forall k | 0 <= k < end && OpensDeepSection(lines, k) :: SectionHandled(lines, after, k)
  {
    forall k | 0 <= k < end && OpensDeepSection(lines, k)
      ensures SectionHandled(lines, after, k)
    {
      if k < i {
        assert SectionHandled(lines, before, k);
        if a :| 0 <= a < |before| && Covers(before[a], k) {
          assert Covers(after[a], k);
        }
      } else if |after| > |before| {
        assert Covers(after[|before|], k) || IsStuckSection(lines, i);
      }
    }
  }

  // ---------------------------------------------------------------------------
  // Lists under a label
  // ---------------------------------------------------------------------------

  function RStrip(line: string): string {
    if line != "" && IsSpace(line[|line| - 1]) then RStrip(line[..|line| - 1]) else line
  }

  predicate IsLabel(line: string) {
    !IsBlank(line) && IndentOf(line) > 0 && RStrip(line) != "" && RStrip(line)[|RStrip(line)| - 1] == ':'
  }

  predicate IsBullet(c: char) {
    c == '*' || c == '-' || c == '+'
  }

  predicate StartsWithBullet(line: string) {
    LStrip(line) != "" && IsBullet(LStrip(line)[0])
  }

  predicate IsListItem(line: string) {
    StartsWithBullet(line) && |LStrip(line)| > 1 && LStrip(line)[1] == ' '
  }

  /** A visible line that a block of items at this depth continues with, across blank lines. */
  predicate Continues(line: string, depth: nat) {
    IndentOf(line) > depth || (IndentOf(line) == depth && IsListItem(line))
  }

  /** Whether a block of items at this depth still contains line `k`. */
  predicate ListGoesOn(lines: seq<string>, k: nat, depth: nat) {
    && k < |lines|
    && if IsBlank(lines[k])
       then NextVisible(lines, k + 1) < |lines| && Continues(lines[NextVisible(lines, k + 1)], depth)
       else IndentOf(lines[k]) >= depth
  }

  method CollectList(lines: seq<string>, start: nat, depth: nat) returns (end: nat)
    requires start < |lines| && !IsBlank(lines[start]) && IndentOf(lines[start]) == depth
    ensures start < end <= |lines| && !IsBlank(lines[end - 1])
    ensures forall k | start <= k < end :: ListGoesOn(lines, k, depth)
    ensures !ListGoesOn(lines, end, depth)
  {
    end := start;
    while end < |lines|
      invariant start <= end <= |lines|
      invariant end > start && IsBlank(lines[end - 1]) ==>
                  NextVisible(lines, end) < |lines| && Continues(lines[NextVisible(lines, end)], depth)
      invariant forall k | start <= k < end :: ListGoesOn(lines, k, depth)
    {
      if IsBlank(lines[end]) {
        var m := SkipBlanks(lines, end + 1);
        if m >= |lines| || !Continues(lines[m], depth) {
          break;
        }
      } else if IndentOf(lines[end]) < depth {
        break;
      }
      end := end + 1;
    }
  }

  /** A label, a blank line, and then a bullet that stands deeper. */
  predicate OpensDeepList(lines: seq<string>, i: nat) {
    && i + 1 < |lines| && IsLabel(lines[i]) && IsBlank(lines[i + 1]) && NextVisible(lines, i + 1) < |lines|
    && var first := lines[NextVisible(lines, i + 1)]; IndentOf(first) > IndentOf(lines[i]) && StartsWithBullet(first)
  }

  /** The block is all of the list under its label: the first visible line up to where the list no longer goes on. */
  predicate ReportedList(lines: seq<string>, b: Block) {
    && OpensDeepList(lines, b.anchor) && b.first == b.start == NextVisible(lines, b.anchor + 1) && b.start < b.end
    && b.extra == IndentOf(lines[b.first]) - IndentOf(lines[b.anchor])
    && (forall k | b.start <= k < b.end :: ListGoesOn(lines, k, IndentOf(lines[b.first])))
    && !ListGoesOn(lines, b.end, IndentOf(lines[b.first]))
  }

  predicate ListHandled(changes: seq<Block>, k: nat) {
    exists a | 0 <= a < |changes| :: Covers(changes[a], k)
  }

  predicate ListsHandledBefore(lines: seq<string>, changes: seq<Block>, i: nat) {
    forall k | 0 <= k < i && OpensDeepList(lines, k) :: ListHandled(changes, k)
  }

  predicate AllListsReported(lines: seq<string>, changes: seq<Block>) {
    forall a | 0 <= a < |changes| :: ReportedList(lines, changes[a])
  }

  /** Label, blank lines and the whole list behind them, moved under the label. */
  method FixList(lines: seq<string>, out: seq<string>, changes: seq<Block>, i: nat, j: nat)
    returns (newOut: seq<string>, newChanges: seq<Block>, end: nat)
    requires OpensDeepList(lines, i) && j == NextVisible(lines, i + 1)
    requires Explains(lines, out, changes, true, i) && AllListsReported(lines, changes) &&
             ListsHandledBefore(lines, changes, i)
    ensures i < end <= |lines| && Explains(lines, newOut, newChanges, true, end)
    ensures AllListsReported(lines, newChanges) && ListsHandledBefore(lines, newChanges, end)
  {
    var extra := IndentOf(lines[j]) - IndentOf(lines[i]);
    end := CollectList(lines, j, IndentOf(lines[j]));
    var newBlock := seq(end - j, n requires 0 <= n < end - j => Dedented(lines[j + n], extra, true));
    ExplainPlain(lines, out, changes, true, i, lines[i..j]);
    newOut := out + lines[i..j];
    var block := Block(i, j, j, end, extra);
    ExplainBlock(lines, newOut, changes, true, block, newBlock);
    ListsStayHandled(lines, changes, block);
    newOut, newChanges := newOut + newBlock, changes + [block];
  }

  /** Reports exactly the deep lists under a label, from the first on and skipping what earlier lists contain. */
  method FixOverIndentedLists(lines: seq<string>) returns (out: seq<string>, changes: seq<Block>)
    ensures Explains(lines, out, changes, true, |lines|)
    ensures forall a | 0 <= a < |changes| :: ReportedList(lines, changes[a])
    ensures forall k | 0 <= k < |lines| && OpensDeepList(lines, k) :: ListHandled(changes, k)
  {
    out, changes := [], [];
    var i := 0;
    while i < |lines|
      invariant 0 <= i <= |lines|
      invariant Explains(lines, out, changes, true, i)
      invariant AllListsReported(lines, changes) && ListsHandledBefore(lines, changes, i)
    {
      if IsLabel(lines[i]) && i + 1 < |lines| && IsBlank(lines[i + 1]) {
        var j := SkipBlanks(lines, i + 1);
        if j < |lines| && IndentOf(lines[j]) > IndentOf(lines[i]) && StartsWithBullet(lines[j]) {
          out, changes, i := FixList(lines, out, changes, i, j);
          continue;
        }
      }
      ExplainPlain(lines, out, changes, true, i, [lines[i]]);
      out := out + [lines[i]];
      i := i + 1;
    }
  }

  lemma ListsStayHandled(lines: seq<string>, before: seq<Block>, block: Block)
    requires forall k | 0 <= k < block.anchor && OpensDeepList(lines, k) :: ListHandled(before, k)
    ensures forall k | 0 <= k < block.end && OpensDeepList(lines, k) :: ListHandled(before + [block], k)
  {
    var after := before + [block];
    forall k | 0 <= k < block.end && OpensDeepList(lines, k)
      ensures ListHandled(after, k)
    {
      if k < block.anchor {
        var a :| 0 <= a < |before| && Covers(before[a], k);
        assert Covers(after[a], k);
      } else {
        assert Covers(after[|before|], k);
      }
    }
  }

  // ---------------------------------------------------------------------------
  // What the reports mean
  // ---------------------------------------------------------------------------

  /** No report, no change. */
  lemma NothingReportedNothingChanged(lines: seq<string>, out: seq<string>, blanksToo: bool)
    requires Explains(lines, out, [], blanksToo, |lines|)
    ensures out == lines
  {
    assert forall k | 0 <= k < |lines| :: out[k] == lines[k];
  }

  lemma {:induction false} DroppedSpaces(line: string, extra: nat)
    requires BeginsWithSpaces(line, extra)
    ensures LStrip(line[extra..]) == LStrip(line)
  {
    if extra > 0 {
      assert line[1..][extra - 1..] == line[extra..];
      DroppedSpaces(line[1..], extra - 1);
      assert IsSpace(line[0]);
    }
  }

  lemma {:induction false} LineAfterKeepsText(lines: seq<string>, blocks: seq<Block>, blanksToo: bool, k: nat)
    requires k < |lines|
    ensures LStrip(LineAfter(lines, blocks, blanksToo, k)) == LStrip(lines[k])
  {
    if blocks != [] {
      var b := blocks[|blocks| - 1];
      if InBlock(b, k) && BeginsWithSpaces(lines[k], b.extra) {
        DroppedSpaces(lines[k], b.extra);
      } else if !InBlock(b, k) {
        LineAfterKeepsText(lines, blocks[..|blocks| - 1], blanksToo, k);
      }
    }
  }

  /**
   Either pass keeps the number and order of lines, changes nothing but leading spaces, and
   aligns the first line of each block with its label.
   */
  lemma DedentingIsLossless(lines: seq<string>, out: seq<string>, blocks: seq<Block>, blanksToo: bool)
    requires Explains(lines, out, blocks, blanksToo, |lines|)
    ensures |out| == |lines| && forall k | 0 <= k < |lines| :: LStrip(out[k]) == LStrip(lines[k])
    ensures forall a | 0 <= a < |blocks| ::
              BeginsWithSpaces(lines[blocks[a].first], blocks[a].extra) ==>
                IndentOf(out[blocks[a].first]) == IndentOf(lines[blocks[a].anchor])
  {
    forall k | 0 <= k < |lines|
      ensures LStrip(out[k]) == LStrip(lines[k])
    {
      LineAfterKeepsText(lines, blocks, blanksToo, k);
    }
    forall a | 0 <= a < |blocks| && BeginsWithSpaces(lines[blocks[a].first], blocks[a].extra)
      ensures IndentOf(out[blocks[a].first]) == IndentOf(lines[blocks[a].anchor])
    {
      var b := blocks[a];
      assert WellPlaced(lines, b) && InBlock(b, b.first);
      InsideBlock(lines, blocks, blanksToo, |lines|, a, b.first);
      DroppedSpaces(lines[b.first], b.extra);
    }
  }

  /** Two lines of one block keep their relative depth when both are moved. */
  lemma BlocksMoveAsAWhole(lines: seq<string>, out: seq<string>, blocks: seq<Block>, blanksToo: bool, a: nat, j: nat,
      k: nat)
    requires Explains(lines, out, blocks, blanksToo, |lines|)
    requires a < |blocks| && InBlock(blocks[a], j) && InBlock(blocks[a], k) && !IsBlank(lines[j]) && !IsBlank(lines[k])
    requires BeginsWithSpaces(lines[j], blocks[a].extra) && BeginsWithSpaces(lines[k], blocks[a].extra)
    ensures IndentOf(out[j]) - IndentOf(out[k]) == IndentOf(lines[j]) - IndentOf(lines[k])
  {
    assert WellPlaced(lines, blocks[a]);
    InsideBlock(lines, blocks, blanksToo, |lines|, a, j);
    InsideBlock(lines, blocks, blanksToo, |lines|, a, k);
    DroppedSpaces(lines[j], blocks[a].extra);
    DroppedSpaces(lines[k], blocks[a].extra);
  }
}
