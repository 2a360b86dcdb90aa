/** File names across runs: when a name tells which file of which run it belongs to. */
module RunNames {
  import opened FileNames
  import opened Text

  predicate StartsWithoutDigit(s: string) {
    s != "" && !IsDigit(s[0])
  }

  predicate IsNumeral(piece: Piece) {
    piece == Index || piece == RunId
  }

  /** A piece that always shows some character that is no digit, as all extensions and creation times do. */
  predicate IsBreak(piece: Piece) {
    piece == Extension || piece == RunCreatedAt || (piece.Literal? && !IsDigit(piece.c))
  }

  // ---------------------------------------------------------------------------
  // Texts of one shape
  // ---------------------------------------------------------------------------

  predicate SameShape(x: string, y: string) {
    |x| == |y| && forall k | 0 <= k < |x| :: IsDigit(x[k]) <==> IsDigit(y[k])
  }

  function LeadingDigits(s: string): (n: nat)
    ensures n <= |s| && AllDigits(s[..n]) && (n < |s| ==> !IsDigit(s[n]))
  {
    if s == "" || !IsDigit(s[0]) then 0 else 1 + LeadingDigits(s[1..])
  }

  function TrailingDigits(s: string): (n: nat)
    ensures n <= |s| && AllDigits(s[|s| - n..]) && (n < |s| ==> !IsDigit(s[|s| - n - 1]))
  {
    if s == "" || !IsDigit(s[|s| - 1]) then 0 else 1 + TrailingDigits(s[..|s| - 1])
  }

  function NonDigits(s: string): nat {
    if s == "" then 0 else (if IsDigit(s[0]) then 0 else 1) + NonDigits(s[1..])
  }

  lemma {:induction false} NonDigitsAppend(x: string, y: string)
    ensures NonDigits(x + y) == NonDigits(x) + NonDigits(y)
  {
    if x == "" {
      assert x + y == y;
    } else {
      assert (x + y)[1..] == x[1..] + y;
      NonDigitsAppend(x[1..], y);
    }
  }

  lemma {:induction false} NoNonDigitsIff(s: string)
    ensures NonDigits(s) == 0 <==> AllDigits(s)
  {
    if s != "" {
      NoNonDigitsIff(s[1..]);
      assert AllDigits(s) <==> IsDigit(s[0]) && AllDigits(s[1..]) by {
        assert forall k | 1 <= k < |s| :: s[k] == s[1..][k - 1];
      }
    }
  }

  lemma {:induction false} SameShapeSameNonDigits(x: string, y: string)
    requires SameShape(x, y)
    ensures NonDigits(x) == NonDigits(y)
  {
    if x != "" {
      assert SameShape(x[1..], y[1..]);
      SameShapeSameNonDigits(x[1..], y[1..]);
    }
  }

  lemma {:induction false} DigitsBehind(x: string, digits: string)
    requires AllDigits(digits)
    ensures TrailingDigits(x + digits) == |digits| + TrailingDigits(x)
  {
    var n := |digits| - 1;
    if digits == "" {
      assert x + digits == x;
    } else {
      assert (x + digits)[..|x| + n] == x + digits[..n];
      DigitsBehind(x, digits[..n]);
    }
  }

  lemma {:induction false} DigitsInFront(digits: string, x: string)
    requires AllDigits(digits)
    ensures LeadingDigits(digits + x) == |digits| + LeadingDigits(x)
  {
    if digits == "" {
      assert digits + x == x;
    } else {
      assert (digits + x)[1..] == digits[1..] + x;
      DigitsInFront(digits[1..], x);
    }
  }

  lemma {:induction false} EndDecides(x: string, end: string)
    requires TrailingDigits(end) < |end|
    ensures TrailingDigits(x + end) == TrailingDigits(end)
  {
    if IsDigit(end[|end| - 1]) {
      assert (x + end)[..|x| + |end| - 1] == x + end[..|end| - 1];
      EndDecides(x, end[..|end| - 1]);
    }
  }

  lemma {:induction false} StartDecides(start: string, x: string)
    requires LeadingDigits(start) < |start|
    ensures LeadingDigits(start + x) == LeadingDigits(start)
  {
    if IsDigit(start[0]) {
      assert (start + x)[1..] == start[1..] + x;
      StartDecides(start[1..], x);
    }
  }

  lemma {:induction false} SameShapeSameLeading(x: string, y: string)
    requires SameShape(x, y)
    ensures LeadingDigits(x) == LeadingDigits(y)
  {
    if x != "" && IsDigit(x[0]) {
      SameShapeSameLeading(x[1..], y[1..]);
    }
  }

  lemma {:induction false} SameShapeSameTrailing(x: string, y: string)
    requires SameShape(x, y)
    ensures TrailingDigits(x) == TrailingDigits(y)
  {
    var n := |x| - 1;
    if x != "" && IsDigit(x[n]) {
      SameShapeSameTrailing(x[..n], y[..n]);
    }
  }

  lemma {:induction false} NonDigitStopsLeading(s: string, k: nat)
    requires k < |s| && !IsDigit(s[k])
    ensures LeadingDigits(s) < |s|
  {
    if IsDigit(s[0]) {
      NonDigitStopsLeading(s[1..], k - 1);
    }
  }

  lemma {:induction false} NonDigitStopsTrailing(s: string, k: nat)
    requires k < |s| && !IsDigit(s[k])
    ensures TrailingDigits(s) < |s|
  {
    if IsDigit(s[|s| - 1]) {
      NonDigitStopsTrailing(s[..|s| - 1], k);
    }
  }

  /** Of two beginnings of one text with equally many other characters and digits at the end, neither is longer. */
  lemma SamePlace(x1: string, y1: string, x2: string, y2: string)
    requires x1 + y1 == x2 + y2 && |x1| <= |x2|
    requires NonDigits(x1) == NonDigits(x2) && TrailingDigits(x1) == TrailingDigits(x2)
    ensures |x1| == |x2|
  {
    var z := x2[|x1|..];
    assert x2 == x1 + z by {
      assert (x1 + y1)[..|x1|] == x1 && (x2 + y2)[..|x1|] == x2[..|x1|];
    }
    NonDigitsAppend(x1, z);
    NoNonDigitsIff(z);
    DigitsBehind(x1, z);
  }

  // ---------------------------------------------------------------------------
  // The shape of names
  // ---------------------------------------------------------------------------

  /** Namings of two runs of one transfer. */
  predicate OfOneTransfer(a: Naming, b: Naming) {
    a.extension == b.extension && StartsWithoutDigit(a.extension) && IsTimestamp(a.createdAt) &&
      IsTimestamp(b.createdAt)
  }

  lemma BreaksHaveOneShape(piece: Piece, i: nat, a: Naming, j: nat, b: Naming)
    requires IsBreak(piece) && OfOneTransfer(a, b)
    ensures var x, y := RenderPiece(piece, i, a), RenderPiece(piece, j, b);
            SameShape(x, y) && LeadingDigits(x) == LeadingDigits(y) < |x| &&
              TrailingDigits(x) == TrailingDigits(y) < |x|
  {
    var x, y := RenderPiece(piece, i, a), RenderPiece(piece, j, b);
    var k := if piece == RunCreatedAt then 4 else 0;
    SameShapeSameLeading(x, y);
    SameShapeSameTrailing(x, y);
    NonDigitStopsLeading(x, k);
    NonDigitStopsTrailing(x, k);
  }

  lemma {:induction false} NamesHaveEqualNonDigits(pieces: Template, i: nat, a: Naming, j: nat, b: Naming)
    requires OfOneTransfer(a, b)
    ensures NonDigits(FileName(pieces, i, a)) == NonDigits(FileName(pieces, j, b))
  {
    if pieces != [] {
      var x, y := RenderPiece(pieces[0], i, a), RenderPiece(pieces[0], j, b);
      NamesHaveEqualNonDigits(pieces[1..], i, a, j, b);
      NonDigitsAppend(x, FileName(pieces[1..], i, a));
      NonDigitsAppend(y, FileName(pieces[1..], j, b));
      if IsBreak(pieces[0]) {
        BreaksHaveOneShape(pieces[0], i, a, j, b);
        SameShapeSameNonDigits(x, y);
      } else {
        NoNonDigitsIff(x);
        NoNonDigitsIff(y);
      }
    }
  }

  lemma {:induction false} DigitsWithoutBreaks(pieces: Template, i: nat, naming: Naming)
    requires forall k | 0 <= k < |pieces| :: !IsBreak(pieces[k])
    ensures AllDigits(FileName(pieces, i, naming))
  {
    if pieces != [] {
      DigitsWithoutBreaks(pieces[1..], i, naming);
    }
  }

  /** The stretch between breaks that a piece stands in. */
  function RunStart(pieces: Template, k: nat): (lo: nat)
    requires k <= |pieces|
    ensures lo <= k && (lo == 0 || IsBreak(pieces[lo - 1]))
    ensures forall m | lo <= m < k :: !IsBreak(pieces[m])
  {
    if k > 0 && !IsBreak(pieces[k - 1]) then RunStart(pieces, k - 1) else k
  }

  function RunEnd(pieces: Template, k: nat): (hi: nat)
    requires k <= |pieces|
    ensures k <= hi <= |pieces| && (hi == |pieces| || IsBreak(pieces[hi]))
    ensures forall m | k <= m < hi :: !IsBreak(pieces[m])
    decreases |pieces| - k
  {
    if k < |pieces| && !IsBreak(pieces[k]) then RunEnd(pieces, k + 1) else k
  }

  function RunAround(pieces: Template, k: nat): (run: Template)
    requires k <= |pieces|
    ensures forall m | 0 <= m < |run| :: !IsBreak(run[m])
  {
    pieces[RunStart(pieces, k)..RunEnd(pieces, k)]
  }

  lemma LastBreak(pieces: Template, i: nat, a: Naming, j: nat, b: Naming)
    requires OfOneTransfer(a, b) && pieces != [] && IsBreak(pieces[|pieces| - 1])
    ensures TrailingDigits(FileName(pieces, i, a)) == TrailingDigits(FileName(pieces, j, b))
  {
    var n := |pieces| - 1;
    BreaksHaveOneShape(pieces[n], i, a, j, b);
    LastPieceLast(pieces, i, a);
    LastPieceLast(pieces, j, b);
    EndDecides(FileName(pieces[..n], i, a), RenderPiece(pieces[n], i, a));
    EndDecides(FileName(pieces[..n], j, b), RenderPiece(pieces[n], j, b));
  }

  lemma LastPieceLast(pieces: Template, i: nat, naming: Naming)
    requires pieces != []
    ensures FileName(pieces, i, naming) ==
            FileName(pieces[..|pieces| - 1], i, naming) + RenderPiece(pieces[|pieces| - 1], i, naming)
  {
    var n := |pieces| - 1;
    NameInParts(pieces, n, i, naming);
    assert pieces[n..] == [pieces[n]] && pieces[n..][1..] == [];
    assert FileName(pieces[n..], i, naming) == RenderPiece(pieces[n], i, naming) + "";
  }

  lemma FirstBreak(pieces: Template, i: nat, a: Naming, j: nat, b: Naming)
    requires OfOneTransfer(a, b) && (pieces != [] ==> IsBreak(pieces[0]))
    ensures LeadingDigits(FileName(pieces, i, a)) == LeadingDigits(FileName(pieces, j, b))
  {
    if pieces != [] {
      BreaksHaveOneShape(pieces[0], i, a, j, b);
      StartDecides(RenderPiece(pieces[0], i, a), FileName(pieces[1..], i, a));
      StartDecides(RenderPiece(pieces[0], j, b), FileName(pieces[1..], j, b));
    }
  }

  /** What stands in front of a stretch is equally long in two equal names. */
  lemma FrontIsFixed(front: Template, back: Template, i: nat, a: Naming, j: nat, b: Naming)
    requires OfOneTransfer(a, b) && (front != [] ==> IsBreak(front[|front| - 1]))
    requires FileName(front, i, a) + FileName(back, i, a) == FileName(front, j, b) + FileName(back, j, b)
    ensures FileName(back, i, a) == FileName(back, j, b)
  {
    var x, y := FileName(front, i, a), FileName(front, j, b);
    if front != [] {
      NamesHaveEqualNonDigits(front, i, a, j, b);
      LastBreak(front, i, a, j, b);
      if |x| <= |y| {
        SamePlace(x, FileName(back, i, a), y, FileName(back, j, b));
      } else {
        SamePlace(y, FileName(back, j, b), x, FileName(back, i, a));
      }
    }
    SplitOff(x, y, FileName(back, i, a), FileName(back, j, b));
  }

  lemma StretchIsFixed(run: Template, back: Template, i: nat, a: Naming, j: nat, b: Naming)
    requires OfOneTransfer(a, b) && (back != [] ==> IsBreak(back[0])) && forall k | 0 <= k < |run| :: !IsBreak(run[k])
    requires FileName(run, i, a) + FileName(back, i, a) == FileName(run, j, b) + FileName(back, j, b)
    ensures FileName(run, i, a) == FileName(run, j, b)
  {
    DigitsWithoutBreaks(run, i, a);
    DigitsWithoutBreaks(run, j, b);
    DigitsInFront(FileName(run, i, a), FileName(back, i, a));
    DigitsInFront(FileName(run, j, b), FileName(back, j, b));
    FirstBreak(back, i, a, j, b);
    SplitOff(FileName(run, i, a), FileName(run, j, b), FileName(back, i, a), FileName(back, j, b));
  }

  lemma NameInThreeParts(pieces: Template, lo: nat, hi: nat, i: nat, naming: Naming)
    requires lo <= hi <= |pieces|
    ensures FileName(pieces, i, naming) ==
            FileName(pieces[..lo], i, naming) + FileName(pieces[lo..], i, naming)
    ensures FileName(pieces[lo..], i, naming) ==
            FileName(pieces[lo..hi], i, naming) + FileName(pieces[hi..], i, naming)
  {
    NameInParts(pieces, lo, i, naming);
    NameInParts(pieces[lo..], hi - lo, i, naming);
    assert pieces[lo..][..hi - lo] == pieces[lo..hi] && pieces[lo..][hi - lo..] == pieces[hi..];
  }

  /** Equal names of two runs show the same digits between any two breaks. */
  lemma RunIsFixed(pieces: Template, k: nat, i: nat, a: Naming, j: nat, b: Naming)
    requires OfOneTransfer(a, b) && k <= |pieces| && FileName(pieces, i, a) == FileName(pieces, j, b)
    ensures FileName(RunAround(pieces, k), i, a) == FileName(RunAround(pieces, k), j, b)
  {
    var lo, hi := RunStart(pieces, k), RunEnd(pieces, k);
    NameInThreeParts(pieces, lo, hi, i, a);
    NameInThreeParts(pieces, lo, hi, j, b);
    FrontIsFixed(pieces[..lo], pieces[lo..], i, a, j, b);
    StretchIsFixed(RunAround(pieces, k), pieces[hi..], i, a, j, b);
  }

  // ---------------------------------------------------------------------------
  // What a name tells
  // ---------------------------------------------------------------------------

  function Exchanged(pieces: Template): (t: Template)
    ensures |t| == |pieces|
    ensures forall k | 0 <= k < |pieces| ::
              t[k] == if pieces[k] == Index then RunId else if pieces[k] == RunId then Index else pieces[k]
  {
    seq(|pieces|, k requires 0 <= k < |pieces| =>
      if pieces[k] == Index then RunId else if pieces[k] == RunId then Index else pieces[k])
  }

  lemma {:induction false} ExchangedName(pieces: Template, i: nat, naming: Naming)
    ensures FileName(pieces, i, naming) == FileName(Exchanged(pieces), naming.runId, naming.(runId := i))
  {
    if pieces != [] {
      ExchangedName(pieces[1..], i, naming);
      assert Exchanged(pieces)[1..] == Exchanged(pieces[1..]);
    }
  }

  /** Once the index is known, a name tells the run. */
  lemma NameFixesRun(pieces: Template, i: nat, a: Naming, j: nat, b: Naming)
    requires a.extension == b.extension && |a.createdAt| == |b.createdAt| && (Index in pieces ==> i == j)
    requires FileName(pieces, i, a) == FileName(pieces, j, b)
    ensures RunId in pieces ==> a.runId == b.runId
    ensures RunCreatedAt in pieces ==> a.createdAt == b.createdAt
  {
    var t := Exchanged(pieces);
    ExchangedName(pieces, i, a);
    ExchangedName(pieces, j, b);
    assert forall k | 0 <= k < |t| :: t[k] == RunId ==> pieces[k] == Index;
    NameFixesFile(t, a.runId, a.(runId := i), b.runId, b.(runId := j));
    assert forall k | 0 <= k < |t| :: pieces[k] == RunId ==> t[k] == Index;
    assert forall k | 0 <= k < |t| :: pieces[k] == RunCreatedAt ==> t[k] == RunCreatedAt;
  }

  function Count(pieces: Template, piece: Piece): (n: nat)
    ensures n > 0 <==> piece in pieces
  {
    if pieces == [] then 0 else (if pieces[0] == piece then 1 else 0) + Count(pieces[1..], piece)
  }

  /** How many digits the numerals of a template take up together. */
  function NumeralDigits(pieces: Template, index: nat, runId: nat): nat {
    if pieces == [] then 0 else NumeralWidth(pieces[0], index, runId) + NumeralDigits(pieces[1..], index, runId)
  }

  function NumeralWidth(piece: Piece, index: nat, runId: nat): nat {
    if piece == Index then |Decimal(index)| else if piece == RunId then |Decimal(runId)| else 0
  }

  lemma OneMore(n: nat, w: nat)
    ensures (1 + n) * w == w + n * w && (0 + n) * w == n * w
  {
  }

  lemma {:induction false} NumeralDigitsByKind(pieces: Template, index: nat, runId: nat)
    ensures NumeralDigits(pieces, index, runId) ==
            Count(pieces, Index) * |Decimal(index)| + Count(pieces, RunId) * |Decimal(runId)|
  {
    if pieces != [] {
      NumeralDigitsByKind(pieces[1..], index, runId);
      OneMore(Count(pieces[1..], Index), |Decimal(index)|);
      OneMore(Count(pieces[1..], RunId), |Decimal(runId)|);
    }
  }

  /** Two stretches whose counts of the two numerals are not in proportion. */
  predicate AreIndependent(x: Template, y: Template) {
    Count(x, Index) * Count(y, RunId) != Count(y, Index) * Count(x, RunId)
  }

  /** There is only one kind of numerals, or two stretches between breaks are independent. */
  predicate TellsRunsApart(pieces: Template) {
    || Index !in pieces
    || RunId !in pieces
    || exists p, q | 0 <= p < |pieces| && 0 <= q < |pieces| ::
         AreIndependent(RunAround(pieces, p), RunAround(pieces, q))
  }

  lemma PieceIsInItsRun(pieces: Template, k: nat)
    requires k < |pieces| && !IsBreak(pieces[k])
    ensures pieces[k] in RunAround(pieces, k)
  {
    var lo := RunStart(pieces, k);
    assert RunEnd(pieces, k) == RunEnd(pieces, k + 1);
    assert RunAround(pieces, k)[k - lo] == pieces[k];
  }

  lemma {:induction false} StretchLength(run: Template, i: nat, naming: Naming)
    requires forall k | 0 <= k < |run| :: !IsBreak(run[k])
    ensures |FileName(run, i, naming)| + Count(run, Index) + Count(run, RunId) ==
            |run| + NumeralDigits(run, i, naming.runId)
  {
    if run != [] {
      StretchLength(run[1..], i, naming);
    }
  }

  lemma OnlyZeroSolves(n1: nat, r1: nat, n2: nat, r2: nat, d: int, e: int)
    requires n1 * d + r1 * e == 0 && n2 * d + r2 * e == 0 && n1 * r2 != n2 * r1
    ensures d == 0 && e == 0
  {
    assert r2 * (n1 * d + r1 * e) - r1 * (n2 * d + r2 * e) == (n1 * r2 - n2 * r1) * d;
    assert n1 * (n2 * d + r2 * e) - n2 * (n1 * d + r1 * e) == (n1 * r2 - n2 * r1) * e;
  }

  lemma SameLengthOfStretch(run: Template, i: nat, a: Naming, j: nat, b: Naming, d: int, e: int)
    requires (forall k | 0 <= k < |run| :: !IsBreak(run[k])) && FileName(run, i, a) == FileName(run, j, b)
    requires |Decimal(i)| == |Decimal(j)| + d && |Decimal(a.runId)| == |Decimal(b.runId)| + e
    ensures Count(run, Index) * d + Count(run, RunId) * e == 0
  {
    StretchLength(run, i, a);
    StretchLength(run, j, b);
    NumeralDigitsByKind(run, i, a.runId);
    NumeralDigitsByKind(run, j, b.runId);
    Factored(Count(run, Index), |Decimal(j)|, d);
    Factored(Count(run, RunId), |Decimal(b.runId)|, e);
  }

  lemma Factored(n: nat, w: nat, d: int)
    ensures n * (w + d) == n * w + n * d
  {
  }

  lemma StretchesFixWidths(x: Template, y: Template, i: nat, a: Naming, j: nat, b: Naming, d: int, e: int)
    requires (forall k | 0 <= k < |x| :: !IsBreak(x[k])) && FileName(x, i, a) == FileName(x, j, b)
    requires (forall k | 0 <= k < |y| :: !IsBreak(y[k])) && FileName(y, i, a) == FileName(y, j, b)
    requires |Decimal(i)| == |Decimal(j)| + d && |Decimal(a.runId)| == |Decimal(b.runId)| + e
    requires AreIndependent(x, y)
    ensures d == 0 && e == 0
  {
    SameLengthOfStretch(x, i, a, j, b, d, e);
    SameLengthOfStretch(y, i, a, j, b, d, e);
    OnlyZeroSolves(Count(x, Index), Count(x, RunId), Count(y, Index), Count(y, RunId), d, e);
  }

  /** Two independent stretches leave the numerals of equal names no choice of length. */
  lemma WidthsAreFixed(pieces: Template, p: nat, q: nat, i: nat, a: Naming, j: nat, b: Naming)
    requires OfOneTransfer(a, b) && FileName(pieces, i, a) == FileName(pieces, j, b)
    requires p < |pieces| && q < |pieces| && AreIndependent(RunAround(pieces, p), RunAround(pieces, q))
    ensures |Decimal(i)| == |Decimal(j)| && |Decimal(a.runId)| == |Decimal(b.runId)|
  {
    var x, y := RunAround(pieces, p), RunAround(pieces, q);
    var d, e := |Decimal(i)| - |Decimal(j)|, |Decimal(a.runId)| - |Decimal(b.runId)|;
    RunIsFixed(pieces, p, i, a, j, b);
    RunIsFixed(pieces, q, i, a, j, b);
    StretchesFixWidths(x, y, i, a, j, b, d, e);
  }

  /** One name, one file of one run, however often the placeholders are repeated. */
  lemma NameFixesFileAndRun(pieces: Template, i: nat, a: Naming, j: nat, b: Naming)
    requires TellsRunsApart(pieces) && OfOneTransfer(a, b)
    requires FileName(pieces, i, a) == FileName(pieces, j, b)
    ensures Index in pieces ==> i == j
    ensures RunId in pieces ==> a.runId == b.runId
    ensures RunCreatedAt in pieces ==> a.createdAt == b.createdAt
  {
    if Index !in pieces {
      NameFixesRun(pieces, i, a, j, b);
    } else if RunId !in pieces {
      NameFixesFile(pieces, i, a, j, b);
    } else {
      var p, q :| 0 <= p < |pieces| && 0 <= q < |pieces| && AreIndependent(RunAround(pieces, p), RunAround(pieces, q));
      WidthsAreFixed(pieces, p, q, i, a, j, b);
      SameWidthSameName(pieces, i, a, j, b);
    }
  }

  /** Across all runs of a transfer with this extension one name belongs to one file. */
  ghost predicate FixesFilesAndRuns(pieces: Template, extension: string) {
    forall i: nat, a: Naming, j: nat, b: Naming |
      OfOneTransfer(a, b) && a.extension == extension && FileName(pieces, i, a) == FileName(pieces, j, b) ::
      i == j && a.runId == b.runId && (RunCreatedAt in pieces ==> a.createdAt == b.createdAt)
  }

  lemma ApartFixes(pieces: Template, extension: string)
    requires Index in pieces && RunId in pieces && TellsRunsApart(pieces)
    ensures FixesFilesAndRuns(pieces, extension)
  {
    forall i: nat, a: Naming, j: nat, b: Naming |
      OfOneTransfer(a, b) && a.extension == extension && FileName(pieces, i, a) == FileName(pieces, j, b)
      ensures i == j && a.runId == b.runId && (RunCreatedAt in pieces ==> a.createdAt == b.createdAt)
    {
      NameFixesFileAndRun(pieces, i, a, j, b);
    }
  }

  /** Every digit string without a leading zero is a numeral. */
  lemma {:induction false} NumeralFor(s: string) returns (n: nat)
    requires s != "" && AllDigits(s) && s[0] != '0'
    ensures Decimal(n) == s && n > 0
  {
    var last := |s| - 1;
    var d := DigitFor(s[last]);
    if last == 0 {
      n := d;
    } else {
      var m := NumeralFor(s[..last]);
      n := 10 * m + d;
      assert n / 10 == m && n % 10 == d;
      assert s == s[..last] + [s[last]];
    }
  }

  lemma DigitFor(c: char) returns (d: nat)
    requires IsDigit(c)
    ensures d < 10 && Digit(d) == c && (d == 0 ==> c == '0')
  {
    d := (c - '0') as nat;
  }

  // ---------------------------------------------------------------------------
  // Templates without digits between the numerals of one stretch
  // ---------------------------------------------------------------------------

  predicate IsBreakBetween(pieces: Template, p: nat, q: nat)
    requires p < q < |pieces|
  {
    exists k | p < k < q :: IsBreak(pieces[k])
  }

  /** Whatever stands between two numerals is a numeral, or there is a break between them. */
  predicate NumeralsAreTogether(pieces: Template) {
    forall p, k, q | 0 <= p < k < q < |pieces| && IsNumeral(pieces[p]) && IsNumeral(pieces[q]) ::
      IsNumeral(pieces[k]) || IsBreakBetween(pieces, p, q)
  }

  function Ones(n: nat): (s: string)
    ensures |s| == n && forall k | 0 <= k < n :: s[k] == '1'
  {
    seq(n, _ => '1')
  }

  /** Numerals of ones alone make a text of ones. */
  lemma {:induction false} NumeralsOfOnes(run: Template, i: nat, naming: Naming)
    requires forall k | 0 <= k < |run| :: IsNumeral(run[k])
    requires IsOnes(i) && IsOnes(naming.runId)
    ensures FileName(run, i, naming) == Ones(NumeralDigits(run, i, naming.runId))
  {
    if run != [] {
      NumeralsOfOnes(run[1..], i, naming);
    }
  }

  lemma {:induction false} NumeralDigitsOfFront(pieces: Template, index: nat, runId: nat)
    requires pieces != []
    ensures NumeralDigits(pieces, index, runId) ==
            NumeralDigits(pieces[..|pieces| - 1], index, runId) + NumeralWidth(pieces[|pieces| - 1], index, runId)
  {
    if |pieces| > 1 {
      NumeralDigitsOfFront(pieces[1..], index, runId);
      assert pieces[1..][..|pieces| - 2] == pieces[..|pieces| - 1][1..];
    }
  }

  predicate IsOnes(n: nat) {
    Decimal(n) == Ones(|Decimal(n)|)
  }

  /** In such a stretch only the total number of ones shows. */
  lemma {:induction false} OnlyTheTotalShows(run: Template, i: nat, a: Naming, j: nat, b: Naming)
    requires forall k | 0 <= k < |run| :: !IsBreak(run[k])
    requires NumeralsAreTogether(run)
    requires IsOnes(i) && IsOnes(a.runId) && IsOnes(j) && IsOnes(b.runId)
    requires NumeralDigits(run, i, a.runId) == NumeralDigits(run, j, b.runId)
    ensures FileName(run, i, a) == FileName(run, j, b)
  {
    if run != [] {
      var n := |run| - 1;
      if !IsNumeral(run[0]) {
        TogetherWithin(run, 1, n + 1);
        OnlyTheTotalShows(run[1..], i, a, j, b);
      } else if !IsNumeral(run[n]) {
        TogetherWithin(run, 0, n);
        NumeralDigitsOfFront(run, i, a.runId);
        NumeralDigitsOfFront(run, j, b.runId);
        OnlyTheTotalShows(run[..n], i, a, j, b);
        LastPieceLast(run, i, a);
        LastPieceLast(run, j, b);
      } else {
        assert forall k | 0 < k < n :: IsNumeral(run[k]) || IsBreakBetween(run, 0, n);
        NumeralsOfOnes(run, i, a);
        NumeralsOfOnes(run, j, b);
      }
    }
  }

  lemma TogetherWithin(pieces: Template, lo: nat, hi: nat)
    requires lo <= hi <= |pieces| && NumeralsAreTogether(pieces)
    requires forall k | lo <= k < hi :: !IsBreak(pieces[k])
    ensures NumeralsAreTogether(pieces[lo..hi])
  {
    var run := pieces[lo..hi];
    forall p, k, q | 0 <= p < k < q < |run| && IsNumeral(run[p]) && IsNumeral(run[q])
      ensures IsNumeral(run[k])
    {
      assert run[p] == pieces[lo + p] && run[k] == pieces[lo + k] && run[q] == pieces[lo + q];
      assert !IsBreakBetween(pieces, lo + p, lo + q);
    }
  }

  /** Two runs whose numerals are made of ones, and all stretches show as many of them. */
  predicate Balance(pieces: Template, i: nat, a: Naming, j: nat, b: Naming) {
    && a.extension == b.extension && a.createdAt == b.createdAt
    && IsOnes(i) && IsOnes(a.runId) && IsOnes(j) && IsOnes(b.runId)
    && forall k | 0 <= k < |pieces| ::
         NumeralDigits(RunAround(pieces, k), i, a.runId) == NumeralDigits(RunAround(pieces, k), j, b.runId)
  }

  lemma {:induction false} BalanceCollides(pieces: Template, lo: nat, i: nat, a: Naming, j: nat, b: Naming)
    requires NumeralsAreTogether(pieces) && Balance(pieces, i, a, j, b)
    requires lo <= |pieces| && (lo == 0 || IsBreak(pieces[lo - 1]))
    ensures FileName(pieces[lo..], i, a) == FileName(pieces[lo..], j, b)
    decreases |pieces| - lo
  {
    var hi := RunEnd(pieces, lo);
    if lo < |pieces| {
      assert RunAround(pieces, lo) == pieces[lo..hi];
      TogetherWithin(pieces, lo, hi);
      OnlyTheTotalShows(pieces[lo..hi], i, a, j, b);
      NameInThreeParts(pieces, lo, hi, i, a);
      NameInThreeParts(pieces, lo, hi, j, b);
      if hi < |pieces| {
        BalanceCollides(pieces, hi + 1, i, a, j, b);
        FirstPieceFirst(pieces, hi, i, a);
        FirstPieceFirst(pieces, hi, j, b);
      } else {
        assert pieces[hi..] == [];
      }
    }
  }

  /** Without independent stretches all counts are in proportion to those of one that has both kinds. */
  lemma AllInProportion(pieces: Template) returns (p: nat)
    requires Index in pieces && RunId in pieces && !TellsRunsApart(pieces)
    ensures p < |pieces| && Index in RunAround(pieces, p) && RunId in RunAround(pieces, p)
    ensures forall k | 0 <= k < |pieces| :: !AreIndependent(RunAround(pieces, p), RunAround(pieces, k))
  {
    p :| 0 <= p < |pieces| && pieces[p] == Index;
    var q :| 0 <= q < |pieces| && pieces[q] == RunId;
    PieceIsInItsRun(pieces, p);
    PieceIsInItsRun(pieces, q);
    if RunId !in RunAround(pieces, p) {
      AloneIsIndependent(RunAround(pieces, p), RunAround(pieces, q), Index, RunId);
    }
  }

  /** A stretch with one kind of numerals only, and another with the other kind. */
  lemma AloneIsIndependent(x: Template, y: Template, piece: Piece, other: Piece)
    requires IsNumeral(piece) && IsNumeral(other) && piece != other
    requires piece in x && other !in x && other in y
    ensures AreIndependent(x, y)
  {
    Positive(Count(x, piece), Count(y, other));
  }

  lemma Positive(m: nat, n: nat)
    requires m > 0 && n > 0
    ensures m * n > 0
  {
  }

  lemma Shifted(x: nat, y: nat, m: nat, n: nat, v: nat, w: nat, longV: nat, longW: nat)
    requires m * y == x * n && longV == v + n && longW == w + m
    ensures x * longV + y * w == x * v + y * longW
  {
    Factored(x, v, n);
    Factored(y, w, m);
  }

  lemma Rebalanced(run: Template, m: nat, n: nat, i: nat, a: nat, j: nat, b: nat)
    requires m * Count(run, RunId) == Count(run, Index) * n
    requires |Decimal(i)| == |Decimal(j)| + n && |Decimal(b)| == |Decimal(a)| + m
    ensures NumeralDigits(run, i, a) == NumeralDigits(run, j, b)
  {
    NumeralDigitsByKind(run, i, a);
    NumeralDigitsByKind(run, j, b);
    Shifted(Count(run, Index), Count(run, RunId), m, n, |Decimal(j)|, |Decimal(a)|,
      |Decimal(i)|, |Decimal(b)|);
  }

  lemma ProportionCollides(pieces: Template, extension: string, createdAt: string)
    returns (i: nat, a: Naming, j: nat, b: Naming)
    requires NumeralsAreTogether(pieces) && Index in pieces && RunId in pieces && !TellsRunsApart(pieces)
    ensures a.extension == b.extension == extension && a.createdAt == b.createdAt == createdAt
    ensures i != j && a.runId != b.runId && FileName(pieces, i, a) == FileName(pieces, j, b)
  {
    var p := AllInProportion(pieces);
    var m, n := Count(RunAround(pieces, p), Index), Count(RunAround(pieces, p), RunId);
    var wide := NumeralFor(Ones(1 + n));
    var long := NumeralFor(Ones(1 + m));
    assert Decimal(1) == Ones(1);
    i, a, j, b := wide, Naming(extension, 1, createdAt), 1, Naming(extension, long, createdAt);
    forall k | 0 <= k < |pieces|
      ensures NumeralDigits(RunAround(pieces, k), i, a.runId) == NumeralDigits(RunAround(pieces, k), j, b.runId)
    {
      Rebalanced(RunAround(pieces, k), m, n, i, a.runId, j, b.runId);
    }
    BalanceCollides(pieces, 0, i, a, j, b);
    assert pieces[0..] == pieces;
  }

  /**
   For templates without digits between the numerals of one stretch: a name belongs to one file
   of one run exactly when two stretches are independent.
   */
  lemma TogetherFixesIff(pieces: Template, extension: string, createdAt: string)
    requires NumeralsAreTogether(pieces) && Index in pieces && RunId in pieces
    requires StartsWithoutDigit(extension) && IsTimestamp(createdAt)
    ensures FixesFilesAndRuns(pieces, extension) <==> TellsRunsApart(pieces)
  {
    if TellsRunsApart(pieces) {
      ApartFixes(pieces, extension);
    } else {
      var i, a, j, b := ProportionCollides(pieces, extension, createdAt);
      assert OfOneTransfer(a, b) && FileName(pieces, i, a) == FileName(pieces, j, b);
    }
  }

  // ---------------------------------------------------------------------------
  // Templates with one index and one run identifier
  // ---------------------------------------------------------------------------

  /** The numerals stand at `p` and `q`, one of each kind, and there are no others. */
  predicate HasOneOfEach(pieces: Template, p: nat, q: nat) {
    && p < q < |pieces| && IsNumeral(pieces[p]) && IsNumeral(pieces[q]) && pieces[p] != pieces[q]
    && forall k | 0 <= k < |pieces| && IsNumeral(pieces[k]) :: k == p || k == q
  }

  lemma BreakSetsApart(pieces: Template, p: nat, q: nat)
    requires HasOneOfEach(pieces, p, q) && IsBreakBetween(pieces, p, q)
    ensures TellsRunsApart(pieces)
  {
    var k :| p < k < q && IsBreak(pieces[k]);
    var lo, x, y := RunStart(pieces, p), RunAround(pieces, p), RunAround(pieces, q);
    assert RunEnd(pieces, p) <= k;
    assert forall m | 0 <= m < |x| :: x[m] == pieces[lo + m];
    PieceIsInItsRun(pieces, p);
    PieceIsInItsRun(pieces, q);
    assert pieces[q] !in x;
    AloneIsIndependent(x, y, pieces[p], pieces[q]);
  }

  lemma {:induction false} PlainNameIsFixed(pieces: Template, i: nat, a: Naming, j: nat, b: Naming)
    requires a.extension == b.extension && a.createdAt == b.createdAt
    requires forall k | 0 <= k < |pieces| :: !IsNumeral(pieces[k])
    ensures FileName(pieces, i, a) == FileName(pieces, j, b)
  {
    if pieces != [] {
      PlainNameIsFixed(pieces[1..], i, a, j, b);
    }
  }

  lemma FirstPieceFirst(pieces: Template, p: nat, i: nat, naming: Naming)
    requires p < |pieces|
    ensures FileName(pieces[p..], i, naming) == RenderPiece(pieces[p], i, naming) + FileName(pieces[p + 1..], i, naming)
  {
    assert pieces[p..][0] == pieces[p] && pieces[p..][1..] == pieces[p + 1..];
  }

  /** Front, first numeral, what is between, second numeral, back. */
  lemma NameInFiveParts(pieces: Template, p: nat, q: nat, i: nat, naming: Naming)
    requires p < q < |pieces|
    ensures FileName(pieces, i, naming) ==
            FileName(pieces[..p], i, naming) +
            (RenderPiece(pieces[p], i, naming) +
             (FileName(pieces[p + 1..q], i, naming) +
              (RenderPiece(pieces[q], i, naming) + FileName(pieces[q + 1..], i, naming))))
  {
    NameInParts(pieces, p, i, naming);
    FirstPieceFirst(pieces, p, i, naming);
    NameInThreeParts(pieces, p + 1, q, i, naming);
    FirstPieceFirst(pieces, q, i, naming);
  }

  lemma Overlap(digits: string, back: string)
    ensures "1" + (digits + (("1" + digits + "1") + back)) == ("1" + digits + "1") + (digits + ("1" + back))
  {
  }

  /** With only digits between the numerals, the first one and the digits can move into the second one and back. */
  lemma OnlyDigitsBetweenCollide(pieces: Template, p: nat, q: nat, extension: string, createdAt: string)
    returns (i: nat, a: Naming, j: nat, b: Naming)
    requires HasOneOfEach(pieces, p, q) && !IsBreakBetween(pieces, p, q)
    ensures a.extension == b.extension == extension && a.createdAt == b.createdAt == createdAt
    ensures i != j && a.runId != b.runId && FileName(pieces, i, a) == FileName(pieces, j, b)
  {
    var between := pieces[p + 1..q];
    var digits := FileName(between, 0, Naming(extension, 0, createdAt));
    DigitsWithoutBreaks(between, 0, Naming(extension, 0, createdAt));
    var long := NumeralFor("1" + digits + "1");
    assert Decimal(1) == "1";
    if pieces[p] == RunId {
      i, a, j, b := long, Naming(extension, 1, createdAt), 1, Naming(extension, long, createdAt);
    } else {
      i, a, j, b := 1, Naming(extension, long, createdAt), long, Naming(extension, 1, createdAt);
    }
    NameInFiveParts(pieces, p, q, i, a);
    NameInFiveParts(pieces, p, q, j, b);
    PlainNameIsFixed(pieces[..p], i, a, j, b);
    PlainNameIsFixed(between, i, a, 0, Naming(extension, 0, createdAt));
    PlainNameIsFixed(between, j, b, 0, Naming(extension, 0, createdAt));
    PlainNameIsFixed(pieces[q + 1..], i, a, j, b);
    Overlap(digits, FileName(pieces[q + 1..], i, a));
  }

  /**
   With one index and one run identifier, names belong to one file of one run exactly when some
   piece between the two is not a digit.
   */
  lemma OneOfEachFixesIff(pieces: Template, p: nat, q: nat, extension: string, createdAt: string)
    requires HasOneOfEach(pieces, p, q) && StartsWithoutDigit(extension) && IsTimestamp(createdAt)
    ensures FixesFilesAndRuns(pieces, extension) <==> IsBreakBetween(pieces, p, q)
  {
    if IsBreakBetween(pieces, p, q) {
      BreakSetsApart(pieces, p, q);
      assert pieces[p] in pieces && pieces[q] in pieces;
      ApartFixes(pieces, extension);
    } else {
      var i, a, j, b := OnlyDigitsBetweenCollide(pieces, p, q, extension, createdAt);
      assert OfOneTransfer(a, b) && FileName(pieces, i, a) == FileName(pieces, j, b);
    }
  }

  /** Without anything between them the two numerals run together: file 11 of run 1 and file 1 of run 11. */
  lemma AdjacentNumeralsCollide(extension: string, createdAt: string)
    ensures FileName([RunId, Index, Literal('.'), Extension], 11, Naming(extension, 1, createdAt)) ==
            FileName([RunId, Index, Literal('.'), Extension], 1, Naming(extension, 11, createdAt))
  {
    var tail := [Literal('.'), Extension];
    var a, b := Naming(extension, 1, createdAt), Naming(extension, 11, createdAt);
    assert tail[1..] == [Extension] && tail[1..][1..] == [];
    assert FileName(tail[1..], 11, a) == extension + "" == FileName(tail[1..], 1, b);
    assert Decimal(1) == "1" && Decimal(11) == "11" by {
      assert Decimal(11 / 10) == ['1'];
    }
    assert [Index, Literal('.'), Extension][1..] == tail;
    assert [RunId, Index, Literal('.'), Extension][1..] == [Index, Literal('.'), Extension];
    assert "1" + ("11" + FileName(tail, 11, a)) == "11" + ("1" + FileName(tail, 1, b));
  }
}
