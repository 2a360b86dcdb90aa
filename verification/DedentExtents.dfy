/** How far the blocks reach that the two passes of `Dedent` move. */
module DedentExtents {
  import opened Dedent
  import opened Text

  /**
   A moved section takes the lines deeper than its header, and rules of dashes, up to the first
   other visible line.
   */
  lemma SectionExtent(lines: seq<string>, b: Block)
    requires ReportedSection(lines, b)
    ensures forall k | b.start <= k < b.end && !IsBlank(lines[k]) ::
              IndentOf(lines[k]) > IndentOf(lines[b.anchor]) || "---" <= LStrip(lines[k])
    ensures b.end < |lines| ==>
            && !IsBlank(lines[b.end]) && IndentOf(lines[b.end]) <= IndentOf(lines[b.anchor])
            && !("---" <= LStrip(lines[b.end]))
  {
  }

  lemma MovedLineIsDeep(lines: seq<string>, b: Block, k: nat)
    requires ReportedList(lines, b) && b.start <= k < b.end <= |lines| && !IsBlank(lines[k])
    ensures IndentOf(lines[k]) >= IndentOf(lines[b.first])
  {
    assert ListGoesOn(lines, k, IndentOf(lines[b.first]));
  }

  /**
   A moved list takes lines as deep as its first item, up to a shallower one, or to blank lines
   behind which the text ends, gets shallower, or goes on as deep but with no item.
   */
  lemma ListExtent(lines: seq<string>, b: Block)
    requires ReportedList(lines, b) && b.end <= |lines|
    ensures forall k: nat | b.start <= k < b.end && !IsBlank(lines[k]) :: IndentOf(lines[k]) >= IndentOf(lines[b.first])
    ensures b.end < |lines| && !IsBlank(lines[b.end]) ==> IndentOf(lines[b.end]) < IndentOf(lines[b.first])
    ensures b.end < |lines| && IsBlank(lines[b.end]) ==>
            var m, depth := NextVisible(lines, b.end + 1), IndentOf(lines[b.first]);
            m == |lines| || IndentOf(lines[m]) < depth || (IndentOf(lines[m]) == depth && !IsListItem(lines[m]))
  {
    forall k: nat | b.start <= k < b.end && !IsBlank(lines[k])
      ensures IndentOf(lines[k]) >= IndentOf(lines[b.first])
    {
      MovedLineIsDeep(lines, b, k);
    }
  }
}
