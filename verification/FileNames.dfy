/**
 Templates for the names of written files: how the accepted template text is read, and when
 the names it gives are distinct.
 */
module FileNames {
  import opened Text
  import opened Wrappers

  datatype Piece = Literal(c: char) | Index | Extension | RunId | RunCreatedAt

  type Template = seq<Piece>

  /** What makes a template unacceptable; `Unrenderable` stands for lookups that fail with anything but a KeyError. */
  datatype TemplateError =
    | InvalidCharacters
    | MissingPlaceholders(names: seq<string>)
    | NoRunPlaceholder
    | InvalidPlaceholder(name: string)
    | Unrenderable(name: string)
    | Malformed

  // ---------------------------------------------------------------------------
  // Reading a template as `str.format` does
  // ---------------------------------------------------------------------------

  predicate IsBrace(c: char) {
    c == '{' || c == '}'
  }

  function UpToBrace(s: string): (n: nat)
    ensures n <= |s|
    ensures forall i | 0 <= i < n :: !IsBrace(s[i])
    ensures n < |s| ==> IsBrace(s[n])
  {
    if s == "" || IsBrace(s[0]) then 0 else 1 + UpToBrace(s[1..])
  }

  predicate AllDigits(s: string) {
    forall i | 0 <= i < |s| :: IsDigit(s[i])
  }

  /** The name of a placeholder; a literal has none. */
  function NameOf(piece: Piece): string {
    match piece
    case Literal(_) => ""
    case Index => "index"
    case Extension => "extension"
    case RunId => "run_id"
    case RunCreatedAt => "run_created_at"
  }

  function PieceFor(name: string): Result<Piece, TemplateError> {
    if name == NameOf(Index) then Ok(Index)
    else if name == NameOf(Extension) then Ok(Extension)
    else if name == NameOf(RunId) then Ok(RunId)
    else if name == NameOf(RunCreatedAt) then Ok(RunCreatedAt)
    else if AllDigits(name) || '.' in name then Err(Unrenderable(name))
    else Err(InvalidPlaceholder(name))
  }

  predicate BraceFree(s: string) {
    forall i | 0 <= i < |s| :: !IsBrace(s[i])
  }

  function Prepend(piece: Piece, rest: Result<Template, TemplateError>): Result<Template, TemplateError> {
    if rest.Ok? then Ok([piece] + rest.value) else rest
  }

  /** Doubled braces stand for themselves; a single brace opens a placeholder that runs to the next closing brace. */
  function Parse(s: string): Result<Template, TemplateError> {
    if s == "" then Ok([])
    else if !IsBrace(s[0]) then Prepend(Literal(s[0]), Parse(s[1..]))
    else if |s| > 1 && s[1] == s[0] then Prepend(Literal(s[0]), Parse(s[2..]))
    else if s[0] == '}' then Err(Malformed)
    else
      var n := 1 + UpToBrace(s[1..]);
      if n == |s| || s[n] == '{' then Err(Malformed)
      else
        var piece := PieceFor(s[1..n]);
        if piece.Ok? then Prepend(piece.value, Parse(s[n + 1..])) else Err(piece.error)
  }

  function Braced(name: string): string {
    "{" + name + "}"
  }

  function PieceText(piece: Piece): string {
    if !piece.Literal? then Braced(NameOf(piece))
    else if IsBrace(piece.c) then [piece.c, piece.c]
    else [piece.c]
  }

  function Unparse(pieces: Template): string {
    if pieces == [] then "" else PieceText(pieces[0]) + Unparse(pieces[1..])
  }

  lemma NamesAreKnown(piece: Piece)
    requires !piece.Literal?
    ensures PieceFor(NameOf(piece)) == Ok(piece) && NameOf(piece) != "" && BraceFree(NameOf(piece))
  {
    var name := NameOf(piece);
    assert |NameOf(Index)| == 5 && |NameOf(Extension)| == 9 && |NameOf(RunId)| == 6 && |NameOf(RunCreatedAt)| == 14;
    assert BraceFree(name) by {
      match piece
      case Index => assert BraceFree("index");
      case Extension => assert BraceFree("extension");
      case RunId => assert BraceFree("run_id");
      case RunCreatedAt => assert BraceFree("run_created_at");
    }
  }

  lemma PrefixOfBraceFree(name: string, rest: string)
    requires BraceFree(name) && rest != "" && IsBrace(rest[0])
    ensures UpToBrace(name + rest) == |name|
  {
    var s, n := name + rest, UpToBrace(name + rest);
    assert s[|name|] == rest[0] && forall i | 0 <= i < |name| :: s[i] == name[i];
  }

  lemma ReadPlaceholder(piece: Piece, rest: string)
    requires !piece.Literal?
    ensures Parse(Braced(NameOf(piece)) + rest) == Prepend(piece, Parse(rest))
  {
    NamesAreKnown(piece);
    var name := NameOf(piece);
    var s := Braced(name) + rest;
    assert s[1..] == name + ("}" + rest);
    PrefixOfBraceFree(name, "}" + rest);
    assert s[0] == '{' && s[1] == name[0];
    assert s[|name| + 1] == '}' && s[1..|name| + 1] == name && s[|name| + 2..] == rest;
  }

  lemma ReadPiece(piece: Piece, rest: string)
    ensures Parse(PieceText(piece) + rest) == Prepend(piece, Parse(rest))
  {
    if !piece.Literal? {
      ReadPlaceholder(piece, rest);
    } else if IsBrace(piece.c) {
      var s := PieceText(piece) + rest;
      assert s[0] == s[1] == piece.c && s[2..] == rest;
    } else {
      var s := PieceText(piece) + rest;
      assert s[0] == piece.c && s[1..] == rest;
    }
  }

  /** Every list of pieces has a text that reads back as that list. */
  lemma {:induction false} ParseReadsText(pieces: Template)
    ensures Parse(Unparse(pieces)) == Ok(pieces)
  {
    if pieces != [] {
      ParseReadsText(pieces[1..]);
      ReadPiece(pieces[0], Unparse(pieces[1..]));
      assert pieces == [pieces[0]] + pieces[1..];
    }
  }

  lemma KnownNames(name: string)
    requires PieceFor(name).Ok?
    ensures !PieceFor(name).value.Literal? && NameOf(PieceFor(name).value) == name
  {
  }

  lemma PlaceholderText(s: string, n: nat)
    requires 1 < n < |s| && s[0] == '{' && s[n] == '}' && PieceFor(s[1..n]).Ok?
    ensures PieceText(PieceFor(s[1..n]).value) == s[..n + 1]
  {
    KnownNames(s[1..n]);
    assert s[..n + 1] == Braced(s[1..n]);
  }

  /** A text that can be read has no other reading. */
  lemma {:induction false} UnparseOfParse(s: string)
    requires Parse(s).Ok?
    ensures Unparse(Parse(s).value) == s
  {
    if s != "" {
      if !IsBrace(s[0]) {
        UnparseOfParse(s[1..]);
        UnparseCons(Literal(s[0]), Parse(s[1..]).value);
      } else if |s| > 1 && s[1] == s[0] {
        UnparseOfParse(s[2..]);
        UnparseCons(Literal(s[0]), Parse(s[2..]).value);
        assert s == [s[0], s[0]] + s[2..];
      } else {
        var n := 1 + UpToBrace(s[1..]);
        PlaceholderText(s, n);
        UnparseOfParse(s[n + 1..]);
        UnparseCons(PieceFor(s[1..n]).value, Parse(s[n + 1..]).value);
        assert s == s[..n + 1] + s[n + 1..];
      }
    }
  }

  lemma UnparseCons(piece: Piece, rest: Template)
    ensures Unparse([piece] + rest) == PieceText(piece) + Unparse(rest)
  {
    assert ([piece] + rest)[1..] == rest;
  }

  // ---------------------------------------------------------------------------
  // Accepting a template
  // ---------------------------------------------------------------------------

  predicate Contains(s: string, t: string) {
    t <= s || (s != "" && Contains(s[1..], t))
  }

  /** The placeholder occurs in the text, doubled braces or not. */
  predicate Mentions(s: string, piece: Piece) {
    Contains(s, Braced(NameOf(piece)))
  }

  /** Letters, digits and the five signs; which characters outside ASCII are letters or digits is left open. */
  predicate IsAllowed(c: char, foreignWord: char -> bool) {
    || 'a' <= c <= 'z' || 'A' <= c <= 'Z' || IsDigit(c) || c == '_' || c == '.' || c == '-' || IsBrace(c)
    || (c > '\U{007F}' && foreignWord(c))
  }

  predicate MatchesPattern(s: string, foreignWord: char -> bool) {
    var body := if s != "" && s[|s| - 1] == '\n' then s[..|s| - 1] else s;
    body != "" && forall i | 0 <= i < |body| :: IsAllowed(body[i], foreignWord)
  }

  /** The validator of target parameters; an accepted template is given as its reading. */
  function ValidateFileNameTemplate(value: string, foreignWord: char -> bool): Result<Template, TemplateError> {
    var missing :=
      (if Mentions(value, Extension) then [] else [NameOf(Extension)]) +
        (if Mentions(value, Index) then [] else [NameOf(Index)]);
    if !MatchesPattern(value, foreignWord) then Err(InvalidCharacters)
    else if missing != [] then Err(MissingPlaceholders(missing))
    else if !Mentions(value, RunId) && !Mentions(value, RunCreatedAt) then Err(NoRunPlaceholder)
    else Parse(value)
  }

  /** An occurrence that starts with a brace lies behind any brace-free stretch. */
  lemma {:induction false} OccursBehind(s: string, n: nat, t: string)
    requires n <= |s| && t != "" && t[0] == '{' && Contains(s, t)
    requires forall i | 0 <= i < n :: s[i] != '{'
    ensures Contains(s[n..], t)
  {
    if n > 0 {
      assert s[1..][n - 1..] == s[n..];
      OccursBehind(s[1..], n - 1, t);
    }
  }

  lemma PlaceholderInFront(s: string, piece: Piece)
    requires !piece.Literal? && Braced(NameOf(piece)) <= s
    ensures Parse(s) == Prepend(piece, Parse(s[|NameOf(piece)| + 2..]))
  {
    ReadPlaceholder(piece, s[|NameOf(piece)| + 2..]);
    assert s == Braced(NameOf(piece)) + s[|NameOf(piece)| + 2..];
  }

  /** What follows the first piece of a text that can be read. */
  function AfterFirstPiece(s: string): (n: nat)
    requires s != "" && Parse(s).Ok?
    ensures 0 < n <= |s| && Parse(s[n..]).Ok? && Parse(s).value[1..] == Parse(s[n..]).value
    ensures (exists i | 1 <= i < n :: s[i] == '{') ==> "{{" <= s
  {
    if !IsBrace(s[0]) then 1
    else if |s| > 1 && s[1] == s[0] then 2
    else 2 + UpToBrace(s[1..])
  }

  /** A placeholder that occurs in the text occurs in the reading, unless an opening brace is doubled. */
  lemma {:induction false} MentionedPlaceholderIsRead(s: string, piece: Piece)
    requires Parse(s).Ok? && !piece.Literal? && Mentions(s, piece) && !Contains(s, "{{")
    ensures piece in Parse(s).value
    decreases |s|
  {
    var t := Braced(NameOf(piece));
    if t <= s {
      PlaceholderInFront(s, piece);
    } else {
      var n := AfterFirstPiece(s);
      assert s[1..][n - 1..] == s[n..];
      OccursBehind(s[1..], n - 1, t);
      NoOccurrenceBehind(s, n, "{{");
      MentionedPlaceholderIsRead(s[n..], piece);
    }
  }

  lemma {:induction false} NoOccurrenceBehind(s: string, n: nat, t: string)
    requires n <= |s| && !Contains(s, t)
    ensures !Contains(s[n..], t)
  {
    if n > 0 {
      assert s[1..][n - 1..] == s[n..];
      NoOccurrenceBehind(s[1..], n - 1, t);
    }
  }

  /** Without doubled opening braces an accepted template really has the index, the extension and a run placeholder. */
  lemma AcceptedTemplateHasItsPlaceholders(value: string, foreignWord: char -> bool)
    requires ValidateFileNameTemplate(value, foreignWord).Ok? && !Contains(value, "{{")
    ensures var pieces := ValidateFileNameTemplate(value, foreignWord).value;
            Index in pieces && Extension in pieces && (RunId in pieces || RunCreatedAt in pieces)
  {
    MentionedPlaceholderIsRead(value, Index);
    MentionedPlaceholderIsRead(value, Extension);
    if Mentions(value, RunId) {
      MentionedPlaceholderIsRead(value, RunId);
    } else {
      MentionedPlaceholderIsRead(value, RunCreatedAt);
    }
  }

  // ---------------------------------------------------------------------------
  // File names
  // ---------------------------------------------------------------------------

  /** What a run puts into its names besides the index. */
  datatype Naming = Naming(extension: string, runId: nat, createdAt: string)

  function RenderPiece(piece: Piece, index: nat, naming: Naming): string {
    match piece
    case Literal(c) => [c]
    case Index => Decimal(index)
    case Extension => naming.extension
    case RunId => Decimal(naming.runId)
    case RunCreatedAt => naming.createdAt
  }

  /** The name of the file with this index. */
  function FileName(pieces: Template, index: nat, naming: Naming): string {
    if pieces == [] then "" else RenderPiece(pieces[0], index, naming) + FileName(pieces[1..], index, naming)
  }

  /** The two namings differ at most in what the template does not show, or in creation times of one length. */
  predicate Alike(pieces: Template, a: Naming, b: Naming) {
    a.extension == b.extension && |a.createdAt| == |b.createdAt| && (RunId in pieces ==> a.runId == b.runId)
  }

  lemma {:induction false} LongerNumeralLongerName(pieces: Template, i: nat, a: Naming, j: nat, b: Naming)
    requires Alike(pieces, a, b) && |Decimal(i)| < |Decimal(j)|
    ensures |FileName(pieces, i, a)| <= |FileName(pieces, j, b)|
    ensures Index in pieces ==> |FileName(pieces, i, a)| < |FileName(pieces, j, b)|
  {
    if pieces != [] {
      LongerNumeralLongerName(pieces[1..], i, a, j, b);
    }
  }

  lemma SplitOff(x: string, y: string, restX: string, restY: string)
    requires |x| == |y| && x + restX == y + restY
    ensures x == y && restX == restY
  {
    assert (x + restX)[..|x|] == x && (y + restY)[..|y|] == y;
    assert (x + restX)[|x|..] == restX && (y + restY)[|y|..] == restY;
  }

  lemma {:induction false} SameWidthSameName(pieces: Template, i: nat, a: Naming, j: nat, b: Naming)
    requires a.extension == b.extension && |a.createdAt| == |b.createdAt|
    requires Index in pieces ==> |Decimal(i)| == |Decimal(j)|
    requires RunId in pieces ==> |Decimal(a.runId)| == |Decimal(b.runId)|
    requires FileName(pieces, i, a) == FileName(pieces, j, b)
    ensures Index in pieces ==> i == j
    ensures RunId in pieces ==> a.runId == b.runId
    ensures RunCreatedAt in pieces ==> a.createdAt == b.createdAt
  {
    if pieces != [] {
      var x, y := RenderPiece(pieces[0], i, a), RenderPiece(pieces[0], j, b);
      SplitOff(x, y, FileName(pieces[1..], i, a), FileName(pieces[1..], j, b));
      if pieces[0] == Index {
        DecimalInjective(i, j);
      } else if pieces[0] == RunId {
        DecimalInjective(a.runId, b.runId);
      }
      SameWidthSameName(pieces[1..], i, a, j, b);
    }
  }

  /**
   One name, one file: within one run, and across runs for a template that does not show the
   run identifier. The creation times agree as well if the template shows them.
   */
  lemma NameFixesFile(pieces: Template, i: nat, a: Naming, j: nat, b: Naming)
    requires Alike(pieces, a, b) && FileName(pieces, i, a) == FileName(pieces, j, b)
    ensures Index in pieces ==> i == j
    ensures RunCreatedAt in pieces ==> a.createdAt == b.createdAt
  {
    if |Decimal(i)| < |Decimal(j)| {
      LongerNumeralLongerName(pieces, i, a, j, b);
    } else if |Decimal(j)| < |Decimal(i)| {
      LongerNumeralLongerName(pieces, j, b, i, a);
    }
    SameWidthSameName(pieces, i, a, j, b);
  }

  lemma NamesAreDistinct(pieces: Template, i: nat, j: nat, naming: Naming)
    requires Index in pieces && FileName(pieces, i, naming) == FileName(pieces, j, naming)
    ensures i == j
  {
    NameFixesFile(pieces, i, naming, j, naming);
  }

  lemma {:induction false} WithoutIndexOneName(pieces: Template, i: nat, j: nat, naming: Naming)
    requires Index !in pieces
    ensures FileName(pieces, i, naming) == FileName(pieces, j, naming)
  {
    if pieces != [] {
      WithoutIndexOneName(pieces[1..], i, j, naming);
    }
  }

  /**
   Different indices give different names exactly when the reading of the template has the index,
   however often and next to whatever.
   */
  lemma NamesAreDistinctIff(pieces: Template, naming: Naming)
    ensures (forall i: nat, j: nat :: FileName(pieces, i, naming) == FileName(pieces, j, naming) ==> i == j) <==>
            Index in pieces
  {
    if Index in pieces {
      forall i: nat, j: nat | FileName(pieces, i, naming) == FileName(pieces, j, naming)
        ensures i == j
      {
        NamesAreDistinct(pieces, i, j, naming);
      }
    } else {
      WithoutIndexOneName(pieces, 0, 1, naming);
      assert FileName(pieces, 0, naming) == FileName(pieces, 1, naming);
    }
  }

  lemma {:induction false} NameInParts(pieces: Template, n: nat, index: nat, naming: Naming)
    requires n <= |pieces|
    ensures FileName(pieces, index, naming) ==
            FileName(pieces[..n], index, naming) + FileName(pieces[n..], index, naming)
  {
    if n > 0 {
      NameInParts(pieces[1..], n - 1, index, naming);
      assert pieces[1..][..n - 1] == pieces[..n][1..] && pieces[1..][n - 1..] == pieces[n..];
      assert pieces[..n][0] == pieces[0];
    } else {
      assert pieces[..0] == [] && pieces[0..] == pieces;
    }
  }

  /** A creation time as the names show it: digits, and underscores between the fields. */
  predicate IsTimestamp(s: string) {
    |s| == 19 && forall k | 0 <= k < 19 ::
      if k == 4 || k == 7 || k == 10 || k == 13 || k == 16 then s[k] == '_' else IsDigit(s[k])
  }

  /** Text that reads back as itself. */
  function Verbatim(s: string): (pieces: Template)
    ensures |pieces| == |s| && forall i | 0 <= i < |s| :: pieces[i] == Literal(s[i])
  {
    if s == "" then [] else [Literal(s[0])] + Verbatim(s[1..])
  }

  lemma VerbatimCons(s: string, rest: Template)
    requires s != ""
    ensures Verbatim(s) + rest == [Literal(s[0])] + (Verbatim(s[1..]) + rest)
  {
  }

  lemma UnparseLiteral(c: char, rest: Template)
    requires !IsBrace(c)
    ensures Unparse([Literal(c)] + rest) == [c] + Unparse(rest)
  {
    UnparseCons(Literal(c), rest);
  }

  lemma FirstAndRest(s: string, more: string)
    requires s != ""
    ensures [s[0]] + (s[1..] + more) == s + more
  {
  }

  lemma {:induction false} UnparseVerbatim(s: string, rest: Template)
    requires BraceFree(s)
    ensures Unparse(Verbatim(s) + rest) == s + Unparse(rest)
  {
    if s == "" {
      assert Verbatim(s) + rest == rest;
      assert s + Unparse(rest) == Unparse(rest);
    } else {
      UnparseVerbatim(s[1..], rest);
      VerbatimCons(s, rest);
      UnparseLiteral(s[0], Verbatim(s[1..]) + rest);
      FirstAndRest(s, Unparse(rest));
    }
  }

  /** Two opening braces, the name, two closing braces, and then any other text. */
  function Escaped(piece: Piece, tail: string): string {
    "{" + Braced(NameOf(piece)) + "}" + tail
  }

  lemma EscapedInParts(name: string, tail: string)
    ensures "{" + Braced(name) + "}" + tail == "{{" + (name + ("}}" + tail))
  {
  }

  /** What a placeholder with doubled braces reads as. */
  function EscapedPieces(piece: Piece, rest: Template): Template {
    [Literal('{')] + (Verbatim(NameOf(piece)) + ([Literal('}')] + rest))
  }

  /** A placeholder with doubled braces is plain text. */
  lemma DoubledBracesAreText(piece: Piece, rest: Template)
    requires !piece.Literal?
    ensures Parse(Escaped(piece, Unparse(rest))) == Ok(EscapedPieces(piece, rest))
  {
    NamesAreKnown(piece);
    var closing := [Literal('}')] + rest;
    UnparseCons(Literal('}'), rest);
    UnparseVerbatim(NameOf(piece), closing);
    UnparseCons(Literal('{'), Verbatim(NameOf(piece)) + closing);
    EscapedInParts(NameOf(piece), Unparse(rest));
    ParseReadsText(EscapedPieces(piece, rest));
  }

  lemma {:induction false} PiecesAreMentioned(pieces: Template, piece: Piece)
    requires piece in pieces && !piece.Literal?
    ensures Mentions(Unparse(pieces), piece)
  {
    if pieces[0] != piece {
      PiecesAreMentioned(pieces[1..], piece);
      OccursFrom(Unparse(pieces), |PieceText(pieces[0])|, Braced(NameOf(piece)));
    }
  }

  lemma {:induction false} OccursFrom(s: string, n: nat, t: string)
    requires n <= |s| && Contains(s[n..], t)
    ensures Contains(s, t)
  {
    if n > 0 {
      assert s[1..][n - 1..] == s[n..];
      OccursFrom(s[1..], n - 1, t);
    }
  }

  lemma EscapedMentions(piece: Piece, tail: string, other: Piece)
    requires other == piece || Mentions(tail, other)
    ensures Mentions(Escaped(piece, tail), other)
  {
    var s, t := Escaped(piece, tail), Braced(NameOf(other));
    if other == piece {
      assert s[1..] == t + ("}" + tail);
      assert t <= s[1..];
      OccursFrom(s, 1, t);
    } else {
      var n := |NameOf(piece)| + 4;
      assert s[n..] == tail;
      OccursFrom(s, n, t);
    }
  }

  lemma EscapedPiecesHideIt(piece: Piece, rest: Template)
    requires !piece.Literal? && piece !in rest
    ensures piece !in EscapedPieces(piece, rest)
  {
  }

  /**
   The validator looks for the placeholder in the text, so any template without an index is
   accepted behind a doubled `{{index}}`, and then every file gets the same name.
   */
  lemma DoubledBracesHideTheIndex(rest: Template, foreignWord: char -> bool, naming: Naming, i: nat, j: nat)
    requires Index !in rest && Extension in rest && (RunId in rest || RunCreatedAt in rest)
    requires MatchesPattern(Escaped(Index, Unparse(rest)), foreignWord)
    ensures var accepted := ValidateFileNameTemplate(Escaped(Index, Unparse(rest)), foreignWord);
            accepted.Ok? && FileName(accepted.value, i, naming) == FileName(accepted.value, j, naming)
  {
    var tail := Unparse(rest);
    var s := Escaped(Index, tail);
    DoubledBracesAreText(Index, rest);
    PiecesAreMentioned(rest, Extension);
    EscapedMentions(Index, tail, Index);
    EscapedMentions(Index, tail, Extension);
    var run := if RunId in rest then RunId else RunCreatedAt;
    PiecesAreMentioned(rest, run);
    EscapedMentions(Index, tail, run);
    EscapedPiecesHideIt(Index, rest);
    WithoutIndexOneName(Parse(s).value, i, j, naming);
  }

  /**
   Without doubled opening braces a template is accepted exactly when its characters are allowed,
   it can be read, and its reading has the index, the extension and a run placeholder; and what
   it is accepted as is that reading.
   */
  lemma AcceptedIff(value: string, foreignWord: char -> bool)
    requires !Contains(value, "{{")
    ensures var read := Parse(value);
            ValidateFileNameTemplate(value, foreignWord).Ok? <==>
              && MatchesPattern(value, foreignWord) && read.Ok?
              && Index in read.value && Extension in read.value && (RunId in read.value || RunCreatedAt in read.value)
    ensures ValidateFileNameTemplate(value, foreignWord).Ok? ==>
            ValidateFileNameTemplate(value, foreignWord) == Parse(value)
  {
    var read := Parse(value);
    if ValidateFileNameTemplate(value, foreignWord).Ok? {
      AcceptedTemplateHasItsPlaceholders(value, foreignWord);
    } else if read.Ok? {
      UnparseOfParse(value);
      forall piece | piece in read.value && !piece.Literal?
        ensures Mentions(value, piece)
      {
        PiecesAreMentioned(read.value, piece);
      }
    }
  }
}
