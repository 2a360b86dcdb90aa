/**
 Rewriting the docstrings of a file in place: spans are positions in the original source,
 and an offset tracks how far the rewritten text has drifted from them.
 */
module Splice {

  datatype Span = Span(start: nat, end: nat)

  /** A converter answers with the new body and the changes it made; without changes the body counts as untouched. */
  datatype Converted = Converted(text: string, changes: seq<string>)

  type Converter = string -> Converted

  predicate IsPrefixLetter(c: char) {
    c == 'r' || c == 'R' || c == 'b' || c == 'B' || c == 'u' || c == 'U' || c == 'f' || c == 'F'
  }

  /** The length of `prefix + quote` at the start of a literal: one letter at most, then three quotes. */
  function OpeningLength(raw: string): nat {
    if raw != "" && IsPrefixLetter(raw[0]) then 4 else 3
  }

  /** A literal has its opening and its closing quotes, the same three characters. */
  predicate IsLiteral(raw: string) {
    && |raw| >= OpeningLength(raw) + 3
    && raw[OpeningLength(raw) - 3..OpeningLength(raw)] == raw[|raw| - 3..]
  }

  function BodyOf(raw: string): string
    requires IsLiteral(raw)
  {
    raw[OpeningLength(raw)..|raw| - 3]
  }

  /** `prefix + quote + converted + quote` */
  function WithBody(raw: string, body: string): string
    requires IsLiteral(raw)
  {
    raw[..OpeningLength(raw)] + body + raw[OpeningLength(raw) - 3..OpeningLength(raw)]
  }

  function Rewritten(raw: string, convert: Converter): string
    requires IsLiteral(raw)
  {
    var converted := convert(BodyOf(raw));
    if converted.changes == [] then raw else WithBody(raw, converted.text)
  }

  /** Sorted spans that do not overlap, from `from` to the end of the source, each a literal. */
  predicate Fits(source: string, spans: seq<Span>, from: nat) {
    && from <= |source|
    && (spans != [] ==>
          && from <= spans[0].start <= spans[0].end <= |source|
          && IsLiteral(source[spans[0].start..spans[0].end])
          && Fits(source, spans[1..], spans[0].end))
  }

  /** The simple rewrite: the text between the spans, interleaved with the rewritten spans. */
  function Interleaved(source: string, spans: seq<Span>, from: nat, convert: Converter): string
    requires Fits(source, spans, from)
    decreases |spans|
  {
    if spans == [] then source[from..]
    else
      source[from..spans[0].start] + Rewritten(source[spans[0].start..spans[0].end], convert)
        + Interleaved(source, spans[1..], spans[0].end, convert)
  }

  function AllChanges(source: string, spans: seq<Span>, from: nat, convert: Converter): seq<string>
    requires Fits(source, spans, from)
    decreases |spans|
  {
    if spans == [] then []
    else
      var raw := source[spans[0].start..spans[0].end];
      convert(BodyOf(raw)).changes + AllChanges(source, spans[1..], spans[0].end, convert)
  }

  method ProcessDocstrings(source: string, spans: seq<Span>, convert: Converter)
    returns (newSource: string, fileChanges: seq<string>)
    requires Fits(source, spans, 0)
    ensures newSource == Interleaved(source, spans, 0, convert)
    ensures fileChanges == AllChanges(source, spans, 0, convert)
  {
    var offset := 0;
    newSource, fileChanges := source, [];
    ghost var done, from := "", 0;
    for k := 0 to |spans|
      invariant Fits(source, spans[k..], from)
      invariant newSource == done + source[from..] && offset == |done| - from
      invariant Interleaved(source, spans, 0, convert) == done + Interleaved(source, spans[k..], from, convert)
      invariant AllChanges(source, spans, 0, convert) == fileChanges + AllChanges(source, spans[k..], from, convert)
    {
      Unfold(source, spans, k, from, convert);
      var start, end := spans[k].start, spans[k].end;
      ghost var rewritten := Rewritten(source[start..end], convert);
      var changes;
      newSource, offset, changes := SpliceOne(newSource, source, start, end, offset, convert, done, from);
      Regroup(done, source[from..start], rewritten, Interleaved(source, spans[k + 1..], end, convert));
      RegroupChanges(fileChanges, changes, AllChanges(source, spans[k + 1..], end, convert));
      fileChanges := fileChanges + changes;
      done, from := done + source[from..start] + rewritten, end;
    }
  }

  /** One turn of the loop: `done` is the text already rewritten, in place of the source up to `from`. */
  method SpliceOne(
    text: string, source: string, start: nat, end: nat, offset: int, convert: Converter, ghost done: string,
      ghost from: nat)
    returns (newText: string, newOffset: int, changes: seq<string>)
    requires from <= start <= end <= |source| && IsLiteral(source[start..end])
    requires text == done + source[from..] && offset == |done| - from
    ensures newText == done + source[from..start] + Rewritten(source[start..end], convert) + source[end..]
    ensures newOffset == |done + source[from..start] + Rewritten(source[start..end], convert)| - end
    ensures changes == convert(BodyOf(source[start..end])).changes
  {
    var raw := source[start..end];
    var converted := convert(BodyOf(raw));
    changes := converted.changes;
    SpanSplits(source, from, start, end);
    if changes == [] {
      Regroup(done, source[from..start], raw, source[end..]);
      return text, offset, changes;
    }
    var newRaw := WithBody(raw, converted.text);
    var adjStart, adjEnd := start + offset, end + offset;
    Cut(done, source[from..start], raw, source[end..], newRaw);
    newText := text[..adjStart] + newRaw + text[adjEnd..];
    newOffset := offset + |newRaw| - |raw|;
  }

  lemma RegroupChanges(a: seq<string>, b: seq<string>, c: seq<string>)
    ensures a + (b + c) == a + b + c
  {
  }

  lemma Unfold(source: string, spans: seq<Span>, k: nat, from: nat, convert: Converter)
    requires k < |spans| && Fits(source, spans[k..], from)
    ensures var start, end := spans[k].start, spans[k].end;
            && from <= start <= end <= |source| && IsLiteral(source[start..end])
            && Fits(source, spans[k + 1..], end)
            && Interleaved(source, spans[k..], from, convert) ==
                 source[from..start] + Rewritten(source[start..end], convert) +
                   Interleaved(source, spans[k + 1..], end, convert)
            && AllChanges(source, spans[k..], from, convert) ==
                 convert(BodyOf(source[start..end])).changes + AllChanges(source, spans[k + 1..], end, convert)
  {
    assert spans[k..][0] == spans[k] && spans[k..][1..] == spans[k + 1..];
  }

  lemma SpanSplits(source: string, from: nat, start: nat, end: nat)
    requires from <= start <= end <= |source|
    ensures source[from..] == source[from..start] + source[start..end] + source[end..]
  {
  }

  /** Where the drifted span lies in the text rewritten so far, and what replacing it gives. */
  lemma Cut(done: string, gap: string, raw: string, after: string, newRaw: string)
    ensures var text := done + (gap + raw + after);
            text[..|done| + |gap|] + newRaw + text[|done| + |gap| + |raw|..] == done + gap + newRaw + after
  {
    var text := done + (gap + raw + after);
    assert text[..|done| + |gap|] == done + gap && text[|done| + |gap| + |raw|..] == after;
  }

  lemma Regroup(done: string, gap: string, raw: string, rest: string)
    ensures done + (gap + raw + rest) == done + gap + raw + rest
  {
  }

  /** A file whose docstrings report no change comes out unchanged. */
  lemma {:induction false} NoChangesNoRewrite(source: string, spans: seq<Span>, from: nat, convert: Converter)
    requires Fits(source, spans, from) && AllChanges(source, spans, from, convert) == []
    ensures Interleaved(source, spans, from, convert) == source[from..]
    decreases |spans|
  {
    if spans != [] {
      var rest := AllChanges(source, spans[1..], spans[0].end, convert);
      assert |AllChanges(source, spans, from, convert)| >= |rest|;
      NoChangesNoRewrite(source, spans[1..], spans[0].end, convert);
      SpanSplits(source, from, spans[0].start, spans[0].end);
    }
  }

  /** Every literal keeps its prefix and its quotes, so that rewriting never touches code outside docstring bodies. */
  lemma RewritingKeepsQuotes(raw: string, body: string)
    requires IsLiteral(raw)
    ensures var rewritten := WithBody(raw, body);
            && IsLiteral(rewritten) && OpeningLength(rewritten) == OpeningLength(raw)
            && rewritten[..OpeningLength(raw)] == raw[..OpeningLength(raw)] &&
                 rewritten[|rewritten| - 3..] == raw[|raw| - 3..]
            && BodyOf(rewritten) == body
  {
    var open, rewritten := OpeningLength(raw), WithBody(raw, body);
    var quote := raw[open - 3..open];
    assert rewritten[..open] == raw[..open] && rewritten[0] == raw[0];
    assert rewritten[open..|rewritten| - 3] == body && rewritten[|rewritten| - 3..] == quote;
    assert rewritten[open - 3..open] == rewritten[..open][open - 3..] == quote;
  }
}
