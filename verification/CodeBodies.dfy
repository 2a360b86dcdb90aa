/** The body of a code directive, which two passes collect and fence in the same way, and what is visible of a text. */
module CodeBodies {
  import opened Sequences
  import opened Text

  // ---------------------------------------------------------------------------
  // Collecting and fencing
  // ---------------------------------------------------------------------------

  function AfterBlank(lines: seq<string>): (rest: seq<string>)
    ensures |rest| <= |lines|
  {
    if lines != [] && IsBlank(lines[0]) then lines[1..] else lines
  }

  /** Blank lines belong to a body unless they hold fewer spaces than a body line must. */
  predicate InBody(line: string, minIndent: nat) {
    if IsBlank(line) then line == "" || |line| >= minIndent else IndentOf(line) >= minIndent
  }

  function BodyLength(lines: seq<string>, minIndent: nat): (n: nat)
    ensures n <= |lines|
    ensures forall i | 0 <= i < n :: InBody(lines[i], minIndent)
    ensures n < |lines| ==> !InBody(lines[n], minIndent)
  {
    if lines == [] || !InBody(lines[0], minIndent) then 0 else 1 + BodyLength(lines[1..], minIndent)
  }

  function BodyLines(lines: seq<string>, minIndent: nat): (body: seq<string>)
    ensures forall i | 0 <= i < |body| :: InBody(body[i], minIndent)
  {
    lines[..BodyLength(lines, minIndent)]
  }

  function AfterBody(lines: seq<string>, minIndent: nat): (rest: seq<string>)
    ensures |rest| <= |lines| && BodyLines(lines, minIndent) + rest == lines
  {
    lines[BodyLength(lines, minIndent)..]
  }

  function MovedLeft(line: string, minIndent: nat): string
    requires InBody(line, minIndent)
  {
    if IsBlank(line) then "" else line[minIndent..]
  }

  function Unindented(lines: seq<string>, minIndent: nat): (body: seq<string>)
    requires forall i | 0 <= i < |lines| :: InBody(lines[i], minIndent)
    ensures |body| == |lines|
    ensures forall i | 0 <= i < |lines| :: body[i] == MovedLeft(lines[i], minIndent)
  {
    seq(|lines|, i requires 0 <= i < |lines| => MovedLeft(lines[i], minIndent))
  }

  /** Without the empty lines at the end. */
  function Trimmed(body: seq<string>): seq<string> {
    if body != [] && body[|body| - 1] == "" then Trimmed(body[..|body| - 1]) else body
  }

  function Indented(indent: string, body: seq<string>): (lines: seq<string>)
    ensures |lines| == |body| && forall i | 0 <= i < |body| :: lines[i] == indent + body[i]
  {
    seq(|body|, i requires 0 <= i < |body| => indent + body[i])
  }

  function Fenced(indent: string, info: string, body: seq<string>): seq<string> {
    [indent + "```" + info] + Indented(indent, body) + [indent + "```"]
  }

  lemma BodyLengthStep(lines: seq<string>, start: nat, n: nat, minIndent: nat)
    requires start + n <= |lines|
    requires forall i | start <= i < start + n :: InBody(lines[i], minIndent)
    requires start + n < |lines| ==> !InBody(lines[start + n], minIndent)
    ensures BodyLength(lines[start..], minIndent) == n
  {
    assert forall i | 0 <= i < |lines| - start :: lines[start..][i] == lines[start + i];
  }

  /** The loop over a body, and the loop that drops its trailing blank lines. */
  method CollectBody(lines: seq<string>, start: nat, minIndent: nat) returns (body: seq<string>, end: nat)
    requires start <= |lines|
    ensures start <= end <= |lines| && lines[end..] == AfterBody(lines[start..], minIndent)
    ensures body == Trimmed(Unindented(BodyLines(lines[start..], minIndent), minIndent))
  {
    body, end := [], start;
    while end < |lines| && InBody(lines[end], minIndent)
      invariant start <= end <= |lines| && |body| == end - start
      invariant forall i | start <= i < end :: InBody(lines[i], minIndent)
      invariant forall i | 0 <= i < |body| :: body[i] == MovedLeft(lines[start + i], minIndent)
    {
      if IsBlank(lines[end]) {
        body := body + [""];
      } else {
        body := body + [lines[end][minIndent..]];
      }
      end := end + 1;
    }
    BodyLengthStep(lines, start, end - start, minIndent);
    assert lines[start..][end - start..] == lines[end..];
    assert body == Unindented(BodyLines(lines[start..], minIndent), minIndent);
    ghost var whole := body;
    while body != [] && body[|body| - 1] == ""
      invariant Trimmed(body) == Trimmed(whole)
      decreases |body|
    {
      body := body[..|body| - 1];
    }
  }

  // ---------------------------------------------------------------------------
  // What is visible
  // ---------------------------------------------------------------------------

  /** The texts of the lines that are not blank. */
  function Visible(lines: seq<string>): seq<string> {
    if lines == [] then [] else (if IsBlank(lines[0]) then [] else [LStrip(lines[0])]) + Visible(lines[1..])
  }

  lemma {:induction false} VisibleAppend(a: seq<string>, b: seq<string>)
    ensures Visible(a + b) == Visible(a) + Visible(b)
  {
    if a == [] {
      assert a + b == b;
    } else {
      assert (a + b)[1..] == a[1..] + b;
      VisibleAppend(a[1..], b);
    }
  }

  lemma {:induction false} TrimmingShowsAll(body: seq<string>)
    ensures Visible(Trimmed(body)) == Visible(body)
  {
    if body != [] && body[|body| - 1] == "" {
      var n := |body| - 1;
      TrimmingShowsAll(body[..n]);
      VisibleAppend(body[..n], body[n..]);
      assert body == body[..n] + body[n..] && body[n..] == [""];
    }
  }

  lemma {:induction false} LStripPastSpaces(line: string, n: nat)
    requires n <= IndentOf(line)
    ensures LStrip(line[n..]) == LStrip(line)
  {
    if n > 0 {
      assert line[1..][n - 1..] == line[n..];
      LStripPastSpaces(line[1..], n - 1);
    }
  }

  lemma {:induction false} LStripOfSpaced(indent: string, text: string)
    requires AllSpaces(indent)
    ensures LStrip(indent + text) == LStrip(text)
  {
    if indent == "" {
      assert indent + text == text;
    } else {
      assert (indent + text)[1..] == indent[1..] + text;
      LStripOfSpaced(indent[1..], text);
    }
  }

  lemma {:induction false} UnindentingShowsAll(lines: seq<string>, minIndent: nat)
    requires forall i | 0 <= i < |lines| :: InBody(lines[i], minIndent)
    ensures Visible(Unindented(lines, minIndent)) == Visible(lines)
  {
    if lines != [] {
      UnindentingShowsAll(lines[1..], minIndent);
      assert Unindented(lines, minIndent)[1..] == Unindented(lines[1..], minIndent);
      if !IsBlank(lines[0]) {
        LStripPastSpaces(lines[0], minIndent);
      }
    }
  }

  lemma {:induction false} IndentingShowsAll(indent: string, body: seq<string>)
    requires AllSpaces(indent)
    ensures Visible(Indented(indent, body)) == Visible(body)
  {
    if body != [] {
      IndentingShowsAll(indent, body[1..]);
      assert Indented(indent, body)[1..] == Indented(indent, body[1..]);
      LStripOfSpaced(indent, body[0]);
    }
  }

  /** Collected, trimmed and moved, a body shows the same texts. */
  lemma BodyShowsAll(lines: seq<string>, minIndent: nat, indent: string)
    requires AllSpaces(indent) && forall i | 0 <= i < |lines| :: InBody(lines[i], minIndent)
    ensures Visible(Indented(indent, Trimmed(Unindented(lines, minIndent)))) == Visible(lines)
  {
    UnindentingShowsAll(lines, minIndent);
    TrimmingShowsAll(Unindented(lines, minIndent));
    IndentingShowsAll(indent, Trimmed(Unindented(lines, minIndent)));
  }

  /**
   A code line is moved as far as its new indent is shorter than the least indent of the body,
   whatever its own depth.
   */
  lemma CodeKeepsItsLayout(line: string, minIndent: nat, indent: string)
    requires AllSpaces(indent) && !IsBlank(line) && InBody(line, minIndent)
    ensures IndentOf(indent + line[minIndent..]) == IndentOf(line) - minIndent + |indent|
  {
    LStripPastSpaces(line, minIndent);
    LStripOfSpaced(indent, line[minIndent..]);
  }

  // ---------------------------------------------------------------------------
  // Lines that a pass may drop
  // ---------------------------------------------------------------------------

  function Without(lines: seq<string>, dropped: string -> bool): seq<string> {
    if lines == [] then [] else (if dropped(lines[0]) then [] else [lines[0]]) + Without(lines[1..], dropped)
  }

  lemma {:induction false} WithoutAppend(a: seq<string>, b: seq<string>, dropped: string -> bool)
    ensures Without(a + b, dropped) == Without(a, dropped) + Without(b, dropped)
  {
    if a == [] {
      assert a + b == b;
    } else {
      assert (a + b)[1..] == a[1..] + b;
      WithoutAppend(a[1..], b, dropped);
    }
  }

  lemma {:induction false} WithoutIsPart(lines: seq<string>, dropped: string -> bool)
    ensures Subsequence(Visible(Without(lines, dropped)), Visible(lines))
  {
    if lines != [] {
      WithoutIsPart(lines[1..], dropped);
      var head: seq<string> := if IsBlank(lines[0]) then [] else [LStrip(lines[0])];
      assert Visible(lines) == head + Visible(lines[1..]);
      if dropped(lines[0]) {
        assert Without(lines, dropped) == Without(lines[1..], dropped);
        SkipAll(Visible(Without(lines[1..], dropped)), head, Visible(lines[1..]));
      } else {
        SubsequencePrefix(head, Visible(Without(lines[1..], dropped)), Visible(lines[1..]));
        assert Without(lines, dropped) == [lines[0]] + Without(lines[1..], dropped);
        VisibleAppend([lines[0]], Without(lines[1..], dropped));
        assert Visible([lines[0]]) == head;
      }
    }
  }

  lemma BlankShowsNothing(lines: seq<string>, dropped: string -> bool)
    ensures Visible(Without(AfterBlank(lines), dropped)) == Visible(Without(lines, dropped))
  {
    if lines != [] && IsBlank(lines[0]) {
      assert lines == [lines[0]] + lines[1..];
      assert Without(lines, dropped) == (if dropped(lines[0]) then [] else [lines[0]]) + Without(lines[1..], dropped);
      VisibleAppend(if dropped(lines[0]) then [] else [lines[0]], Without(lines[1..], dropped));
    }
  }

  /** Two parts that each show all they must, together. */
  lemma PartsShowAll(a: seq<string>, b: seq<string>, dropped: string -> bool, shownA: seq<string>, shownB: seq<string>)
    requires Subsequence(Visible(Without(a, dropped)), Visible(shownA)) &&
             Subsequence(Visible(Without(b, dropped)), Visible(shownB))
    ensures Subsequence(Visible(Without(a + b, dropped)), Visible(shownA + shownB))
  {
    WithoutAppend(a, b, dropped);
    VisibleAppend(Without(a, dropped), Without(b, dropped));
    VisibleAppend(shownA, shownB);
    SubsequenceBoth(Visible(Without(a, dropped)), Visible(shownA), Visible(Without(b, dropped)), Visible(shownB));
  }

  lemma LineInFront(line: string, part: seq<string>, shown: seq<string>)
    requires Subsequence(Visible(part), Visible(shown))
    ensures Subsequence(Visible([line] + part), Visible([line] + shown))
  {
    VisibleAppend([line], part);
    VisibleAppend([line], shown);
    SubsequencePrefix(Visible([line]), Visible(part), Visible(shown));
  }

  lemma MadeLinesInFront(part: seq<string>, made: seq<string>, shown: seq<string>)
    requires Subsequence(part, Visible(shown))
    ensures Subsequence(part, Visible(made + shown))
  {
    VisibleAppend(made, shown);
    SkipAll(part, Visible(made), Visible(shown));
  }

  /** Two parts that show all they hold. */
  lemma PartsAreShown(a: seq<string>, b: seq<string>, shownA: seq<string>, shownB: seq<string>)
    requires Subsequence(Visible(a), Visible(shownA)) && Subsequence(Visible(b), Visible(shownB))
    ensures Subsequence(Visible(a + b), Visible(shownA + shownB))
  {
    VisibleAppend(a, b);
    VisibleAppend(shownA, shownB);
    SubsequenceBoth(Visible(a), Visible(shownA), Visible(b), Visible(shownB));
  }

  lemma {:induction false} ShowsItself(lines: seq<string>)
    ensures Subsequence(lines, lines)
  {
    if lines != [] {
      ShowsItself(lines[1..]);
    }
  }

  /** A fenced body shows all of what was collected. */
  lemma FencedBodyIsShown(body: seq<string>, minIndent: nat, indent: string, info: string)
    requires AllSpaces(indent) && forall i | 0 <= i < |body| :: InBody(body[i], minIndent)
    ensures Subsequence(Visible(body), Visible(Fenced(indent, info, Trimmed(Unindented(body, minIndent)))))
  {
    var first, last := [indent + "```" + info], [indent + "```"];
    var inside := Indented(indent, Trimmed(Unindented(body, minIndent)));
    BodyShowsAll(body, minIndent, indent);
    ShowsItself(Visible(body));
    VisibleAppend(first + inside, last);
    VisibleAppend(first, inside);
    SkipAll(Visible(body), Visible(first), Visible(inside));
    SubsequenceBoth(Visible(body), Visible(first) + Visible(inside), [], Visible(last));
    assert Visible(body) + [] == Visible(body);
  }
}
