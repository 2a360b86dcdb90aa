/**
 The part of SQL that row filters are written in: how its text is read, and what it means for
 a row, in three-valued logic.
 */
module Sql {
  import opened Wrappers

  datatype List<T> = Nil | Cons(head: T, tail: List<T>)

  // ---------------------------------------------------------------------------
  // Words and tokens
  // ---------------------------------------------------------------------------

  datatype Keyword = AND | NOT | IS | NULL | LIKE | ILIKE | LOWER | EQ | NE | GT | GE | LT | LE

  datatype Token = Key(word: Keyword) | Name(name: string) | Str(text: string) | Open | Close

  function KeywordText(word: Keyword): (s: string)
    ensures 0 < |s| <= 5
  {
    match word
    case AND => "AND"
    case NOT => "NOT"
    case IS => "IS"
    case NULL => "NULL"
    case LIKE => "LIKE"
    case ILIKE => "ILIKE"
    case LOWER => "LOWER"
    case EQ => "="
    case NE => "!="
    case GT => ">"
    case GE => ">="
    case LT => "<"
    case LE => "<="
  }

  function KeywordFor(s: string): Option<Keyword> {
    if s == KeywordText(AND) then Some(AND)
    else if s == KeywordText(NOT) then Some(NOT)
    else if s == KeywordText(IS) then Some(IS)
    else if s == KeywordText(NULL) then Some(NULL)
    else if s == KeywordText(LIKE) then Some(LIKE)
    else if s == KeywordText(ILIKE) then Some(ILIKE)
    else if s == KeywordText(LOWER) then Some(LOWER)
    else if s == KeywordText(EQ) then Some(EQ)
    else if s == KeywordText(NE) then Some(NE)
    else if s == KeywordText(GT) then Some(GT)
    else if s == KeywordText(GE) then Some(GE)
    else if s == KeywordText(LT) then Some(LT)
    else if s == KeywordText(LE) then Some(LE)
    else None
  }

  predicate IsWordChar(c: char) {
    'A' <= c <= 'Z' || '!' == c || '<' <= c <= '>'
  }

  function WordLength(s: string): (n: nat)
    ensures n <= |s|
    ensures forall i | 0 <= i < n :: IsWordChar(s[i])
    ensures n < |s| ==> !IsWordChar(s[n])
  {
    if s == "" || !IsWordChar(s[0]) then 0 else 1 + WordLength(s[1..])
  }

  /** What stands between quotes, given the text behind the opening quote; a doubled quote stands for itself. */
  function ReadQuoted(s: string, quote: char): (r: Option<(string, string)>)
    ensures r.Some? ==> |r.value.1| < |s|
  {
    if s == "" then None
    else if s[0] == quote then
      if |s| > 1 && s[1] == quote then PutBack(quote, ReadQuoted(s[2..], quote)) else Some(("", s[1..]))
    else PutBack(s[0], ReadQuoted(s[1..], quote))
  }

  function PutBack(c: char, r: Option<(string, string)>): Option<(string, string)> {
    if r.Some? then Some(([c] + r.value.0, r.value.1)) else None
  }

  function Before(token: Token, rest: Option<List<Token>>): Option<List<Token>> {
    if rest.Some? then Some(Cons(token, rest.value)) else None
  }

  /** `nameQuote` encloses names, the apostrophe encloses texts. */
  function Lex(s: string, nameQuote: char): Option<List<Token>>
    decreases |s|
  {
    if s == "" then Some(Nil)
    else if s[0] == ' ' then Lex(s[1..], nameQuote)
    else if s[0] == '(' then Before(Open, Lex(s[1..], nameQuote))
    else if s[0] == ')' then Before(Close, Lex(s[1..], nameQuote))
    else if s[0] == '\'' || s[0] == nameQuote then
      var r := ReadQuoted(s[1..], s[0]);
      if r.None? then None
      else Before(if s[0] == '\'' then Str(r.value.0) else Name(r.value.0), Lex(r.value.1, nameQuote))
    else
      var n := WordLength(s);
      var word := KeywordFor(s[..n]);
      if word.None? || n == 0 then None else Before(Key(word.value), Lex(s[n..], nameQuote))
  }

  // ---------------------------------------------------------------------------
  // Grammar
  // ---------------------------------------------------------------------------

  datatype Operand = Column(name: string) | Literal(text: string) | Lower(inner: Operand)

  datatype Comparison = Equal | NotEqual | Greater | GreaterOrEqual | Less | LessOrEqual

  datatype Expr =
    | IsNull(operand: Operand)
    | Compare(comparison: Comparison, left: Operand, right: Operand)
    | Like(left: Operand, right: Operand)
    | ILike(left: Operand, right: Operand)
    | Not(expr: Expr)
    | And(first: Expr, second: Expr)

  function ReadOperand(ts: List<Token>): (r: Option<(Operand, List<Token>)>)
    ensures r.Some? ==> r.value.1 < ts
  {
    match ts
    case Cons(Name(n), rest) => Some((Column(n), rest))
    case Cons(Str(t), rest) => Some((Literal(t), rest))
    case Cons(Key(LOWER), Cons(Open, rest)) =>
      (match ReadOperand(rest)
       case Some((inner, Cons(Close, after))) => Some((Lower(inner), after))
       case _ => None)
    case _ => None
  }

  function ComparisonFor(word: Keyword): Option<Comparison> {
    match word
    case EQ => Some(Equal)
    case NE => Some(NotEqual)
    case GT => Some(Greater)
    case GE => Some(GreaterOrEqual)
    case LT => Some(Less)
    case LE => Some(LessOrEqual)
    case _ => None
  }

  function WithSecond(make: Operand -> Expr, ts: List<Token>): (r: Option<(Expr, List<Token>)>)
    ensures r.Some? ==> r.value.1 < ts
  {
    match ReadOperand(ts)
    case Some((right, rest)) => Some((make(right), rest))
    case None => None
  }

  function ReadComparison(left: Operand, word: Keyword, ts: List<Token>): (r: Option<(Expr, List<Token>)>)
    ensures r.Some? ==> r.value.1 < ts
  {
    match ComparisonFor(word)
    case Some(comparison) => WithSecond(right => Compare(comparison, left, right), ts)
    case None => None
  }

  /** A predicate: an operand, and a test of it. */
  function ReadPredicate(ts: List<Token>): (r: Option<(Expr, List<Token>)>)
    ensures r.Some? ==> r.value.1 < ts
  {
    match ReadOperand(ts)
    case None => None
    case Some((left, after)) =>
      match after
      case Cons(Key(IS), Cons(Key(NULL), rest)) => Some((IsNull(left), rest))
      case Cons(Key(IS), Cons(Key(NOT), Cons(Key(NULL), rest))) => Some((Not(IsNull(left)), rest))
      case Cons(Key(LIKE), rest) => WithSecond(right => Like(left, right), rest)
      case Cons(Key(ILIKE), rest) => WithSecond(right => ILike(left, right), rest)
      case Cons(Key(NOT), Cons(Key(LIKE), rest)) => WithSecond(right => Not(Like(left, right)), rest)
      case Cons(Key(NOT), Cons(Key(ILIKE), rest)) => WithSecond(right => Not(ILike(left, right)), rest)
      case Cons(Key(word), rest) => ReadComparison(left, word, rest)
      case _ => None
  }

  /** NOT takes all of the predicate behind it. */
  function ReadFactor(ts: List<Token>): (r: Option<(Expr, List<Token>)>)
    ensures r.Some? ==> r.value.1 < ts
  {
    match ts
    case Cons(Key(NOT), rest) =>
      (match ReadFactor(rest)
       case Some((expr, after)) => Some((Not(expr), after))
       case None => None)
    case _ => ReadPredicate(ts)
  }

  /** AND takes whole factors. */
  function ReadCondition(ts: List<Token>): Option<Expr> {
    match ReadFactor(ts)
    case None => None
    case Some((first, after)) =>
      match after
      case Nil => Some(first)
      case Cons(Key(AND), rest) =>
        (match ReadCondition(rest)
         case Some(second) => Some(And(first, second))
         case None => None)
      case _ => None
  }

  function ReadWhere(s: string, nameQuote: char): Option<Expr> {
    match Lex(s, nameQuote)
    case None => None
    case Some(ts) => ReadCondition(ts)
  }

  // ---------------------------------------------------------------------------
  // Meaning
  // ---------------------------------------------------------------------------

  datatype Truth = True | False | Unknown

  function Negated(t: Truth): Truth {
    match t
    case True => False
    case False => True
    case Unknown => Unknown
  }

  function Both(a: Truth, b: Truth): Truth {
    if a == False || b == False then False
    else if a == Unknown || b == Unknown then Unknown
    else True
  }

  function Known(b: bool): Truth {
    if b then True else False
  }

  /** What the database decides: the lower case of a character, and how texts compare. */
  datatype Collation = Collation(lower: char -> char, holds: (Comparison, string, string) -> bool)

  /** Lower case neither makes nor destroys the two wildcards of LIKE. */
  ghost predicate KeepsWildcards(lower: char -> char) {
    forall c :: (lower(c) == '%' <==> c == '%') && (lower(c) == '_' <==> c == '_')
  }

  function LowerText(s: string, lower: char -> char): (r: string)
    ensures |r| == |s|
  {
    if s == "" then "" else [lower(s[0])] + LowerText(s[1..], lower)
  }

  function Exactly(a: char, b: char): bool {
    a == b
  }

  function IgnoringCase(lower: char -> char): (char, char) -> bool {
    (a, b) => lower(a) == lower(b)
  }

  /** LIKE without an escape character: `%` is any text, `_` is any one character, all else must be the same. */
  function Matches(s: string, pattern: string, same: (char, char) -> bool): bool
    decreases |pattern|, |s|
  {
    if pattern == "" then s == ""
    else if pattern[0] == '%' then Matches(s, pattern[1..], same) || (s != "" && Matches(s[1..], pattern, same))
    else s != "" && (pattern[0] == '_' || same(s[0], pattern[0])) && Matches(s[1..], pattern[1..], same)
  }

  type Row = string -> Option<string>

  function ValueOf(operand: Operand, row: Row, c: Collation): Option<string> {
    match operand
    case Column(name) => row(name)
    case Literal(text) => Some(text)
    case Lower(inner) =>
      var value := ValueOf(inner, row, c);
      if value.Some? then Some(LowerText(value.value, c.lower)) else None
  }

  function Test(left: Option<string>, right: Option<string>, holds: (string, string) -> bool): Truth {
    if left.None? || right.None? then Unknown else Known(holds(left.value, right.value))
  }

  function Eval(expr: Expr, row: Row, c: Collation): Truth {
    match expr
    case IsNull(x) => Known(ValueOf(x, row, c).None?)
    case Compare(op, x, y) => Test(ValueOf(x, row, c), ValueOf(y, row, c), (s, t) => c.holds(op, s, t))
    case Like(x, y) => Test(ValueOf(x, row, c), ValueOf(y, row, c), (s, t) => Matches(s, t, Exactly))
    case ILike(x, y) => Test(ValueOf(x, row, c), ValueOf(y, row, c), (s, t) => Matches(s, t, IgnoringCase(c.lower)))
    case Not(e) => Negated(Eval(e, row, c))
    case And(e, f) => Both(Eval(e, row, c), Eval(f, row, c))
  }

  /** Case-insensitive matching is matching of the lower-case forms. */
  lemma {:induction false} LowerCaseMatches(s: string, pattern: string, lower: char -> char)
    requires KeepsWildcards(lower)
    ensures Matches(LowerText(s, lower), LowerText(pattern, lower), Exactly) ==
            Matches(s, pattern, IgnoringCase(lower))
    decreases |pattern|, |s|
  {
    if pattern != "" {
      var ls, lp := LowerText(s, lower), LowerText(pattern, lower);
      assert lp[0] == lower(pattern[0]) && lp[1..] == LowerText(pattern[1..], lower);
      if s != "" {
        assert ls[0] == lower(s[0]) && ls[1..] == LowerText(s[1..], lower);
      }
      if pattern[0] == '%' {
        LowerCaseMatches(s, pattern[1..], lower);
        if s != "" {
          LowerCaseMatches(s[1..], pattern, lower);
        }
      } else if s != "" {
        LowerCaseMatches(s[1..], pattern[1..], lower);
      }
    }
  }

  /** `%` stands for any text. */
  lemma {:induction false} PercentMatchesAnyText(s: string, pattern: string, same: (char, char) -> bool)
    ensures Matches(s, "%" + pattern, same) <==> exists k :: 0 <= k <= |s| && Matches(s[k..], pattern, same)
    decreases |s|
  {
    assert ("%" + pattern)[1..] == pattern;
    assert s[0..] == s;
    if s != "" {
      PercentMatchesAnyText(s[1..], pattern, same);
      assert forall k | 1 <= k <= |s| :: s[1..][k - 1..] == s[k..];
      assert forall k | 0 <= k < |s| :: s[1..][k..] == s[k + 1..];
    }
  }

  /** `_` stands for any one character, and any other sign for itself. */
  lemma UnderscoreMatchesOne(s: string, c: char, pattern: string)
    requires c != '%'
    ensures Matches(s, [c] + pattern, Exactly) <==>
            s != "" && (c == '_' || s[0] == c) && Matches(s[1..], pattern, Exactly)
  {
    assert ([c] + pattern)[1..] == pattern;
  }

  /** A pattern without wildcards matches itself and nothing else. */
  lemma {:induction false} PlainPatternMatchesItself(s: string, pattern: string)
    requires FreeOf(pattern, '%') && FreeOf(pattern, '_')
    ensures Matches(s, pattern, Exactly) <==> s == pattern
    decreases |pattern|
  {
    if pattern != "" {
      assert pattern[0] != '%' && pattern[0] != '_';
      if s != "" {
        PlainPatternMatchesItself(s[1..], pattern[1..]);
        assert s == [s[0]] + s[1..] && pattern == [pattern[0]] + pattern[1..];
      }
    }
  }

  // ---------------------------------------------------------------------------
  // Reading what was written
  // ---------------------------------------------------------------------------

  function Occurrences(s: string, c: char): nat {
    if s == "" then 0 else (if s[0] == c then 1 else 0) + Occurrences(s[1..], c)
  }

  predicate FreeOf(s: string, c: char) {
    forall i | 0 <= i < |s| :: s[i] != c
  }

  lemma {:induction false} NoOccurrences(s: string, c: char)
    ensures Occurrences(s, c) == 0 <==> FreeOf(s, c)
  {
    if s != "" {
      NoOccurrences(s[1..], c);
      if FreeOf(s[1..], c) && s[0] != c {
        assert FreeOf(s, c);
      }
      if FreeOf(s, c) {
        assert s[0] != c;
      }
    }
  }

  lemma OccurrencesCons(d: char, s: string, c: char)
    ensures Occurrences([d] + s, c) == (if d == c then 1 else 0) + Occurrences(s, c)
  {
    assert ([d] + s)[1..] == s;
  }

  lemma {:induction false} OccurrencesAppend(s: string, t: string, c: char)
    ensures Occurrences(s + t, c) == Occurrences(s, c) + Occurrences(t, c)
  {
    if s == "" {
      assert s + t == t;
    } else {
      assert (s + t)[1..] == s[1..] + t;
      OccurrencesAppend(s[1..], t, c);
    }
  }

  /** Every quote that is read costs two; the last one ends the text. All other characters cost one. */
  lemma {:induction false} ReadQuotedMarks(s: string, quote: char, c: char)
    requires ReadQuoted(s, quote).Some?
    ensures var (text, rest) := ReadQuoted(s, quote).value;
            Occurrences(s, c) ==
            Occurrences(text, c) + (if c == quote then Occurrences(text, c) + 1 else 0) + Occurrences(rest, c)
  {
    if s[0] == quote {
      if |s| > 1 && s[1] == quote {
        ReadQuotedMarks(s[2..], quote, c);
        OccurrencesCons(quote, ReadQuoted(s[2..], quote).value.0, c);
        assert s[1..][1..] == s[2..];
      }
    } else {
      ReadQuotedMarks(s[1..], quote, c);
      OccurrencesCons(s[0], ReadQuoted(s[1..], quote).value.0, c);
    }
  }

  lemma {:induction false} FreeTextReadsBack(text: string, quote: char, rest: string)
    requires FreeOf(text, quote) && (rest == "" || rest[0] != quote)
    ensures ReadQuoted(text + ([quote] + rest), quote) == Some((text, rest))
  {
    var s := text + ([quote] + rest);
    if text == "" {
      assert s == [quote] + rest && s[1..] == rest;
    } else {
      FreeTextReadsBack(text[1..], quote, rest);
      assert s[0] == text[0] && s[1..] == text[1..] + ([quote] + rest);
      assert [text[0]] + text[1..] == text;
    }
  }

  /** A text that is put between quotes unescaped reads back as itself if and only if the quote is not in it. */
  lemma QuotedReadsBackIff(text: string, quote: char, rest: string)
    requires rest == "" || rest[0] != quote
    ensures ReadQuoted(text + ([quote] + rest), quote) == Some((text, rest)) <==> FreeOf(text, quote)
  {
    NoOccurrences(text, quote);
    if FreeOf(text, quote) {
      FreeTextReadsBack(text, quote, rest);
    } else if ReadQuoted(text + ([quote] + rest), quote) == Some((text, rest)) {
      ReadQuotedMarks(text + ([quote] + rest), quote, quote);
      OccurrencesAppend(text, [quote] + rest, quote);
      OccurrencesCons(quote, rest, quote);
      assert false;
    }
  }

  // ---------------------------------------------------------------------------
  // How many quotes a text must have
  // ---------------------------------------------------------------------------

  /** The occurrences of `c` that a text between quotes `quote` takes: two quotes, and the doubled ones. */
  function QuotedMarks(text: string, quote: char, c: char): nat {
    Occurrences(text, c) + if c == quote then Occurrences(text, c) + 2 else 0
  }

  function Marks(ts: List<Token>, nameQuote: char, c: char): nat {
    match ts
    case Nil => 0
    case Cons(Name(name), rest) => QuotedMarks(name, nameQuote, c) + Marks(rest, nameQuote, c)
    case Cons(Str(text), rest) => QuotedMarks(text, '\'', c) + Marks(rest, nameQuote, c)
    case Cons(_, rest) => Marks(rest, nameQuote, c)
  }

  lemma {:induction false} WordsHaveNoMarks(s: string, c: char)
    requires (forall i | 0 <= i < |s| :: IsWordChar(s[i])) && !IsWordChar(c)
    ensures Occurrences(s, c) == 0
  {
    NoOccurrences(s, c);
  }

  predicate IsMark(c: char, nameQuote: char) {
    (c == '\'' || c == nameQuote) && (nameQuote == '"' || nameQuote == '`')
  }

  lemma QuotedTextMarks(s: string, c: char)
    requires s != "" && ReadQuoted(s[1..], s[0]).Some?
    ensures var (text, rest) := ReadQuoted(s[1..], s[0]).value;
            Occurrences(s, c) == QuotedMarks(text, s[0], c) + Occurrences(rest, c)
  {
    ReadQuotedMarks(s[1..], s[0], c);
  }

  lemma WordMarks(s: string, c: char)
    requires !IsWordChar(c)
    ensures Occurrences(s, c) == Occurrences(s[WordLength(s)..], c)
  {
    var n := WordLength(s);
    WordsHaveNoMarks(s[..n], c);
    OccurrencesAppend(s[..n], s[n..], c);
    assert s[..n] + s[n..] == s;
  }

  /** The tokens of a text account for each of its quotes. */
  lemma {:induction false} LexMarks(s: string, nameQuote: char, c: char)
    requires IsMark(c, nameQuote) && Lex(s, nameQuote).Some?
    ensures Occurrences(s, c) == Marks(Lex(s, nameQuote).value, nameQuote, c)
    decreases |s|
  {
    if s == "" {
    } else if s[0] == ' ' || s[0] == '(' || s[0] == ')' {
      LexMarks(s[1..], nameQuote, c);
    } else if s[0] == '\'' || s[0] == nameQuote {
      QuotedTextMarks(s, c);
      LexMarks(ReadQuoted(s[1..], s[0]).value.1, nameQuote, c);
    } else {
      WordMarks(s, c);
      LexMarks(s[WordLength(s)..], nameQuote, c);
    }
  }

  function OperandMarks(operand: Operand, nameQuote: char, c: char): nat {
    match operand
    case Column(name) => QuotedMarks(name, nameQuote, c)
    case Literal(text) => QuotedMarks(text, '\'', c)
    case Lower(inner) => OperandMarks(inner, nameQuote, c)
  }

  function ExprMarks(expr: Expr, nameQuote: char, c: char): nat {
    match expr
    case IsNull(x) => OperandMarks(x, nameQuote, c)
    case Compare(_, x, y) => OperandMarks(x, nameQuote, c) + OperandMarks(y, nameQuote, c)
    case Like(x, y) => OperandMarks(x, nameQuote, c) + OperandMarks(y, nameQuote, c)
    case ILike(x, y) => OperandMarks(x, nameQuote, c) + OperandMarks(y, nameQuote, c)
    case Not(e) => ExprMarks(e, nameQuote, c)
    case And(e, f) => ExprMarks(e, nameQuote, c) + ExprMarks(f, nameQuote, c)
  }

  lemma {:induction false} OperandKeepsMarks(ts: List<Token>, nameQuote: char, c: char)
    requires ReadOperand(ts).Some?
    ensures var (x, rest) := ReadOperand(ts).value;
            Marks(ts, nameQuote, c) == OperandMarks(x, nameQuote, c) + Marks(rest, nameQuote, c)
  {
    match ts
    case Cons(Key(LOWER), Cons(Open, rest)) => OperandKeepsMarks(rest, nameQuote, c);
    case _ =>
  }

  lemma NullTestKeepsMarks(ts: List<Token>, nameQuote: char, c: char)
    requires ReadPredicate(ts).Some? && ReadOperand(ts).value.1.Cons? && ReadOperand(ts).value.1.head == Key(IS)
    ensures var (e, rest) := ReadPredicate(ts).value;
            Marks(ts, nameQuote, c) == ExprMarks(e, nameQuote, c) + Marks(rest, nameQuote, c)
  {
    OperandKeepsMarks(ts, nameQuote, c);
    var test := ReadOperand(ts).value.1.tail;
    assert Marks(test, nameQuote, c) == Marks(test.tail, nameQuote, c);
    if test.head == Key(NOT) {
      assert Marks(test.tail, nameQuote, c) == Marks(test.tail.tail, nameQuote, c);
    }
  }

  lemma ComparisonKeepsMarks(left: Operand, word: Keyword, ts: List<Token>, nameQuote: char, c: char)
    requires ReadComparison(left, word, ts).Some?
    ensures var (e, rest) := ReadComparison(left, word, ts).value;
            OperandMarks(left, nameQuote, c) + Marks(ts, nameQuote, c) ==
            ExprMarks(e, nameQuote, c) + Marks(rest, nameQuote, c)
  {
    OperandKeepsMarks(ts, nameQuote, c);
  }

  lemma MatchKeepsMarks(left: Operand, ts: List<Token>, nameQuote: char, c: char)
    requires ReadOperand(ts).Some?
    ensures var (right, rest) := ReadOperand(ts).value;
            forall e | e in [Like(left, right), ILike(left, right), Not(Like(left, right)), Not(ILike(left, right))] ::
              OperandMarks(left, nameQuote, c) + Marks(ts, nameQuote, c) ==
              ExprMarks(e, nameQuote, c) + Marks(rest, nameQuote, c)
  {
    OperandKeepsMarks(ts, nameQuote, c);
  }

  lemma TestKeepsMarks(ts: List<Token>, nameQuote: char, c: char)
    requires ReadPredicate(ts).Some?
    ensures var (e, rest) := ReadPredicate(ts).value;
            Marks(ts, nameQuote, c) == ExprMarks(e, nameQuote, c) + Marks(rest, nameQuote, c)
  {
    OperandKeepsMarks(ts, nameQuote, c);
    var (left, after) := ReadOperand(ts).value;
    match after
    case Cons(Key(IS), _) => NullTestKeepsMarks(ts, nameQuote, c);
    case Cons(Key(LIKE), rest) => MatchKeepsMarks(left, rest, nameQuote, c);
    case Cons(Key(ILIKE), rest) => MatchKeepsMarks(left, rest, nameQuote, c);
    case Cons(Key(NOT), Cons(Key(LIKE), rest)) => MatchKeepsMarks(left, rest, nameQuote, c);
    case Cons(Key(NOT), Cons(Key(ILIKE), rest)) => MatchKeepsMarks(left, rest, nameQuote, c);
    case Cons(Key(word), rest) => ComparisonKeepsMarks(left, word, rest, nameQuote, c);
  }

  lemma {:induction false} FactorKeepsMarks(ts: List<Token>, nameQuote: char, c: char)
    requires ReadFactor(ts).Some?
    ensures var (e, rest) := ReadFactor(ts).value;
            Marks(ts, nameQuote, c) == ExprMarks(e, nameQuote, c) + Marks(rest, nameQuote, c)
  {
    match ts
    case Cons(Key(NOT), rest) => FactorKeepsMarks(rest, nameQuote, c);
    case _ => TestKeepsMarks(ts, nameQuote, c);
  }

  /** An expression has each name and each text of the tokens it was read from. */
  lemma {:induction false} ConditionKeepsMarks(ts: List<Token>, nameQuote: char, c: char)
    requires ReadCondition(ts).Some?
    ensures Marks(ts, nameQuote, c) == ExprMarks(ReadCondition(ts).value, nameQuote, c)
    decreases ts
  {
    FactorKeepsMarks(ts, nameQuote, c);
    match ReadFactor(ts).value.1
    case Cons(Key(AND), rest) => ConditionKeepsMarks(rest, nameQuote, c);
    case _ =>
  }
}
