/** The WHERE expression of every dialect, read as SQL, means the conjunction of the filters it was written from. */
module FilterMeaning {
  import opened Filters
  import opened Sql
  import opened Wrappers

  // ---------------------------------------------------------------------------
  // Texts token by token
  // ---------------------------------------------------------------------------

  function NameText(q: char, name: string, r: string): string {
    [q] + (name + ([q] + r))
  }

  function WordText(word: Keyword, r: string): string {
    KeywordText(word) + r
  }

  function SignText(c: char, r: string): string {
    [c] + r
  }

  /** Where a word or a quoted text can end. */
  predicate IsClean(r: string) {
    r == "" || r[0] == ' ' || r[0] == '(' || r[0] == ')'
  }

  predicate IsNameQuote(q: char) {
    q == '"' || q == '`'
  }

  lemma LexSpace(r: string, q: char)
    ensures Lex(SignText(' ', r), q) == Lex(r, q)
  {
    assert SignText(' ', r)[1..] == r;
  }

  lemma LexOpen(r: string, q: char)
    ensures Lex(SignText('(', r), q) == Before(Open, Lex(r, q))
  {
    assert SignText('(', r)[1..] == r;
  }

  lemma LexClose(r: string, q: char)
    ensures Lex(SignText(')', r), q) == Before(Close, Lex(r, q))
  {
    assert SignText(')', r)[1..] == r;
  }

  lemma LexQuoted(mark: char, text: string, r: string, q: char)
    requires IsNameQuote(q) && (mark == q || mark == '\'') && FreeOf(text, mark) && IsClean(r)
    ensures Lex(NameText(mark, text, r), q) == Before(if mark == q then Name(text) else Str(text), Lex(r, q))
  {
    var s := NameText(mark, text, r);
    assert s[0] == mark && s[1..] == text + ([mark] + r);
    FreeTextReadsBack(text, mark, r);
  }

  lemma KeywordsAreKnown(word: Keyword)
    ensures KeywordFor(KeywordText(word)) == Some(word)
    ensures forall i | 0 <= i < |KeywordText(word)| :: IsWordChar(KeywordText(word)[i])
  {
    assert KeywordText(AND)[0] != KeywordText(NOT)[0] && |KeywordText(NULL)| == |KeywordText(LIKE)| == 4;
    assert KeywordText(NULL)[0] != KeywordText(LIKE)[0] && KeywordText(ILIKE)[0] != KeywordText(LOWER)[0];
    assert KeywordText(EQ)[0] != KeywordText(GT)[0] && KeywordText(EQ)[0] != KeywordText(LT)[0];
    assert KeywordText(IS)[0] == 'I' && KeywordText(NE)[0] == '!' && KeywordText(GE)[0] == '>' &&
           KeywordText(LE)[0] == '<';
  }

  lemma {:induction false} WordEndsAt(word: string, r: string)
    requires (forall i | 0 <= i < |word| :: IsWordChar(word[i])) && (r == "" || !IsWordChar(r[0]))
    ensures WordLength(word + r) == |word|
  {
    if word == "" {
      assert word + r == r;
    } else {
      WordEndsAt(word[1..], r);
      assert (word + r)[1..] == word[1..] + r;
    }
  }

  lemma LexOther(s: string, q: char)
    requires s != "" && IsWordChar(s[0]) && IsNameQuote(q)
    ensures var word := KeywordFor(s[..WordLength(s)]);
            Lex(s, q) == if word.None? then None else Before(Key(word.value), Lex(s[WordLength(s)..], q))
  {
    assert s[0] != ' ' && s[0] != '(' && s[0] != ')' && s[0] != '\'' && s[0] != q;
    assert WordLength(s) > 0;
  }

  lemma LexWord(word: Keyword, r: string, q: char)
    requires IsNameQuote(q) && IsClean(r)
    ensures Lex(WordText(word, r), q) == Before(Key(word), Lex(r, q))
  {
    var text := KeywordText(word);
    KeywordsAreKnown(word);
    WordEndsAt(text, r);
    LexOther(text + r, q);
    Halves(text, r);
  }

  lemma Halves(a: string, b: string)
    ensures (a + b)[..|a|] == a && (a + b)[|a|..] == b
  {
  }

  // ---------------------------------------------------------------------------
  // Filters token by token
  // ---------------------------------------------------------------------------

  function OperatorText(test: ValueTest, r: string): string {
    match test
    case IsEqual => WordText(EQ, r)
    case IsNotEqual => WordText(NE, r)
    case IsGreater => WordText(GT, r)
    case IsGreaterOrEqual => WordText(GE, r)
    case IsLess => WordText(LT, r)
    case IsLessOrEqual => WordText(LE, r)
    case IsLike => WordText(LIKE, r)
    case IsILike => WordText(ILIKE, r)
    case IsNotLike => WordText(NOT, SignText(' ', WordText(LIKE, r)))
    case IsNotILike => WordText(NOT, SignText(' ', WordText(ILIKE, r)))
  }

  function OperatorTokens(test: ValueTest, rest: List<Token>): List<Token> {
    match test
    case IsEqual => Cons(Key(EQ), rest)
    case IsNotEqual => Cons(Key(NE), rest)
    case IsGreater => Cons(Key(GT), rest)
    case IsGreaterOrEqual => Cons(Key(GE), rest)
    case IsLess => Cons(Key(LT), rest)
    case IsLessOrEqual => Cons(Key(LE), rest)
    case IsLike => Cons(Key(LIKE), rest)
    case IsILike => Cons(Key(ILIKE), rest)
    case IsNotLike => Cons(Key(NOT), Cons(Key(LIKE), rest))
    case IsNotILike => Cons(Key(NOT), Cons(Key(ILIKE), rest))
  }

  lemma OperatorInParts(test: ValueTest, r: string)
    ensures Operator(test) + r == OperatorText(test, r)
  {
    if test == IsNotLike {
      assert Operator(test) == KeywordText(NOT) + ([' '] + KeywordText(LIKE));
    } else if test == IsNotILike {
      assert Operator(test) == KeywordText(NOT) + ([' '] + KeywordText(ILIKE));
    }
  }

  lemma LexOperator(test: ValueTest, r: string, q: char)
    requires IsNameQuote(q) && IsClean(r) && Lex(r, q).Some?
    ensures Lex(OperatorText(test, r), q) == Some(OperatorTokens(test, Lex(r, q).value))
  {
    match test
    case IsEqual => LexWord(EQ, r, q);
    case IsNotEqual => LexWord(NE, r, q);
    case IsGreater => LexWord(GT, r, q);
    case IsGreaterOrEqual => LexWord(GE, r, q);
    case IsLess => LexWord(LT, r, q);
    case IsLessOrEqual => LexWord(LE, r, q);
    case IsLike => LexWord(LIKE, r, q);
    case IsILike => LexWord(ILIKE, r, q);
    case IsNotLike =>
      LexWord(LIKE, r, q);
      LexSpace(WordText(LIKE, r), q);
      LexWord(NOT, SignText(' ', WordText(LIKE, r)), q);
    case IsNotILike =>
      LexWord(ILIKE, r, q);
      LexSpace(WordText(ILIKE, r), q);
      LexWord(NOT, SignText(' ', WordText(ILIKE, r)), q);
  }

  function PlainText(q: char, field: string, test: ValueTest, value: string, r: string): string {
    NameText(q, field, SignText(' ', OperatorText(test, SignText(' ', NameText('\'', value, r)))))
  }

  lemma PlainInParts(dialect: Dialect, field: string, test: ValueTest, value: string, r: string)
    ensures QuoteField(dialect, field) + " " + Operator(test) + " '" + value + "'" + r ==
            PlainText(NameQuote(dialect), field, test, value, r)
  {
    var q, back := NameQuote(dialect), SignText(' ', NameText('\'', value, r));
    OperatorInParts(test, back);
    Regroup([q], field, [q], [' '], Operator(test), " '", value, "'" + r);
    assert " '" == [' '] + ['\''];
    assert " '" + (value + ("'" + r)) == back;
  }

  lemma Regroup(a: string, b: string, c: string, d: string, e: string, f: string, g: string, h: string)
    ensures (((((((a + b) + c) + d) + e) + f) + g) + h) == a + (b + (c + (d + (e + (f + (g + h))))))
  {
    Associate(a, b, c);
    Associate(a, b + c, d);
    Associate(b, c, d);
  }

  lemma Associate(a: string, b: string, c: string)
    ensures (a + b) + c == a + (b + c)
  {
  }

  function LowerField(q: char, field: string, r: string): string {
    WordText(LOWER, SignText('(', NameText(q, field, SignText(')', r))))
  }

  function LowerValue(value: string, r: string): string {
    WordText(LOWER, SignText('(', NameText('\'', value, SignText(')', r))))
  }

  function LoweredText(q: char, field: string, value: string, r: string): string {
    LowerField(q, field, SignText(' ', WordText(LIKE, SignText(' ', LowerValue(value, r)))))
  }

  lemma LowerFieldInParts(q: char, field: string, r: string)
    ensures "LOWER(" + (([q] + field + [q]) + (")" + r)) == LowerField(q, field, r)
  {
    assert "LOWER(" == KeywordText(LOWER) + ['('];
    assert ([q] + field + [q]) + (")" + r) == [q] + (field + ([q] + (")" + r)));
    Associate(KeywordText(LOWER), ['('], [q] + (field + ([q] + (")" + r))));
  }

  lemma LowerValueInParts(value: string, r: string)
    ensures "LOWER('" + (value + ("')" + r)) == LowerValue(value, r)
  {
    assert "LOWER('" == KeywordText(LOWER) + ['(', '\''];
    assert "')" + r == ['\''] + (")" + r);
    Associate(KeywordText(LOWER), ['(', '\''], value + ("')" + r));
    assert ['(', '\''] + (value + ("')" + r)) == ['('] + (['\''] + (value + ("')" + r)));
  }

  lemma LikeInParts(r: string)
    ensures " LIKE " + r == SignText(' ', WordText(LIKE, SignText(' ', r)))
  {
    assert " LIKE " == [' '] + KeywordText(LIKE) + [' '];
  }

  lemma LoweredInParts(dialect: Dialect, field: string, value: string, r: string)
    ensures "LOWER(" + QuoteField(dialect, field) + ") LIKE LOWER('" + value + "')" + r ==
            LoweredText(NameQuote(dialect), field, value, r)
  {
    var name := QuoteField(dialect, field);
    var tail := "LOWER('" + (value + ("')" + r));
    LowerValueInParts(value, r);
    LikeInParts(tail);
    LowerFieldInParts(NameQuote(dialect), field, " LIKE " + tail);
    assert ") LIKE LOWER('" == ")" + " LIKE " + "LOWER('";
    Associate(")", " LIKE ", "LOWER('");
    Regroup("LOWER(", name, ")", " LIKE ", "LOWER('", value, "')", r);
    LoweredGroups("LOWER(", name, ")", " LIKE ", "LOWER('", value, "')", r);
  }

  lemma LoweredGroups(a: string, b: string, c: string, d: string, e: string, f: string, g: string, h: string)
    ensures ((((a + b) + ((c + d) + e)) + f) + g) + h == ((((((a + b) + c) + d) + e) + f) + g) + h
  {
    Associate(a + b, c + d, e);
    Associate(a + b, c, d);
  }

  /** One filter in front of the rest, in parts. */
  function FilterInParts(dialect: Dialect, filter: RowsFilter, r: string): string {
    var q := NameQuote(dialect);
    match filter
    case IsNullFilter(field) => NameText(q, field, SignText(' ', WordText(IS, SignText(' ', WordText(NULL, r)))))
    case IsNotNullFilter(field) =>
      NameText(q, field, SignText(' ', WordText(IS, SignText(' ', WordText(NOT, SignText(' ', WordText(NULL, r)))))))
    case ValueFilter(field, test, value) =>
      if dialect != Postgres && test == IsILike then LoweredText(q, field, value, r)
      else if dialect != Postgres && test == IsNotILike then
        WordText(NOT, SignText(' ', LoweredText(q, field, value, r)))
      else PlainText(q, field, test, value, r)
  }

  lemma IsNullInParts(r: string)
    ensures " IS NULL" + r == SignText(' ', WordText(IS, SignText(' ', WordText(NULL, r))))
  {
    assert " IS NULL" == [' '] + KeywordText(IS) + [' '] + KeywordText(NULL);
    assert " IS NULL" + r == [' '] + (KeywordText(IS) + ([' '] + (KeywordText(NULL) + r)));
  }

  lemma IsNotNullInParts(r: string)
    ensures " IS NOT NULL" + r ==
            SignText(' ', WordText(IS, SignText(' ', WordText(NOT, SignText(' ', WordText(NULL, r))))))
  {
    assert " IS NOT NULL" == [' '] + KeywordText(IS) + [' '] + KeywordText(NOT) + [' '] + KeywordText(NULL);
    assert " IS NOT NULL" + r == [' '] +
           (KeywordText(IS) + ([' '] + (KeywordText(NOT) + ([' '] + (KeywordText(NULL) + r)))));
  }

  lemma QuotedInParts(dialect: Dialect, field: string, back: string, r: string)
    ensures QuoteField(dialect, field) + back + r == NameText(NameQuote(dialect), field, back + r)
  {
    var q := [NameQuote(dialect)];
    Associate(q + field + q, back, r);
    Associate(q + field, q, back + r);
    Associate(q, field, q + (back + r));
  }

  lemma NullTestInParts(dialect: Dialect, filter: RowsFilter, r: string)
    requires !filter.ValueFilter?
    ensures FilterText(dialect, filter) + r == FilterInParts(dialect, filter, r)
  {
    if filter.IsNullFilter? {
      QuotedInParts(dialect, filter.field, " IS NULL", r);
      IsNullInParts(r);
    } else {
      QuotedInParts(dialect, filter.field, " IS NOT NULL", r);
      IsNotNullInParts(r);
    }
  }

  lemma TextIsInParts(dialect: Dialect, filter: RowsFilter, r: string)
    ensures FilterText(dialect, filter) + r == FilterInParts(dialect, filter, r)
  {
    if !filter.ValueFilter? {
      NullTestInParts(dialect, filter, r);
    } else if dialect != Postgres && filter.test == IsILike {
      LoweredInParts(dialect, filter.field, filter.value, r);
    } else if dialect != Postgres && filter.test == IsNotILike {
      var name, value := QuoteField(dialect, filter.field), filter.value;
      LoweredInParts(dialect, filter.field, value, r);
      NegatedInParts(name, value, r);
    } else {
      PlainInParts(dialect, filter.field, filter.test, filter.value, r);
    }
  }

  lemma NegatedInParts(name: string, value: string, r: string)
    ensures "NOT LOWER(" + name + ") LIKE LOWER('" + value + "')" + r ==
            WordText(NOT, SignText(' ', "LOWER(" + name + ") LIKE LOWER('" + value + "')" + r))
  {
    assert "NOT LOWER(" == KeywordText(NOT) + ([' '] + "LOWER(");
    Prefixed(KeywordText(NOT), [' '], "LOWER(", name, ") LIKE LOWER('", value, "')", r);
  }

  lemma Prefixed(a: string, b: string, c: string, d: string, e: string, f: string, g: string, h: string)
    ensures (((((a + (b + c)) + d) + e) + f) + g) + h == a + (b + (((((c + d) + e) + f) + g) + h))
  {
    Associate(a, b + c, d);
    Associate(b, c, d);
    Associate(a, b + (c + d), e);
    Associate(b, c + d, e);
    Associate(a, b + (c + d + e), f);
    Associate(b, c + d + e, f);
    Associate(a, b + (c + d + e + f), g);
    Associate(b, c + d + e + f, g);
    Associate(a, b + (c + d + e + f + g), h);
    Associate(b, c + d + e + f + g, h);
  }

  // ---------------------------------------------------------------------------
  // Tokens and expressions of filters
  // ---------------------------------------------------------------------------

  function LoweredTokens(operand: Token, rest: List<Token>): List<Token> {
    Cons(Key(LOWER), Cons(Open, Cons(operand, Cons(Close, rest))))
  }

  function FilterTokens(dialect: Dialect, filter: RowsFilter, rest: List<Token>): List<Token> {
    match filter
    case IsNullFilter(field) => Cons(Name(field), Cons(Key(IS), Cons(Key(NULL), rest)))
    case IsNotNullFilter(field) => Cons(Name(field), Cons(Key(IS), Cons(Key(NOT), Cons(Key(NULL), rest))))
    case ValueFilter(field, test, value) =>
      var lowered := LoweredTokens(Name(field), Cons(Key(LIKE), LoweredTokens(Str(value), rest)));
      if dialect != Postgres && test == IsILike then lowered
      else if dialect != Postgres && test == IsNotILike then Cons(Key(NOT), lowered)
      else Cons(Name(field), OperatorTokens(test, Cons(Str(value), rest)))
  }

  /** Names and values without the quote that encloses them. */
  predicate IsQuotable(dialect: Dialect, filter: RowsFilter) {
    FreeOf(filter.field, NameQuote(dialect)) && (filter.ValueFilter? ==> FreeOf(filter.value, '\''))
  }

  lemma LexLowered(mark: char, text: string, r: string, q: char)
    requires IsNameQuote(q) && (mark == q || mark == '\'') && FreeOf(text, mark) && IsClean(r) && Lex(r, q).Some?
    ensures Lex(WordText(LOWER, SignText('(', NameText(mark, text, SignText(')', r)))), q) ==
            Some(LoweredTokens(if mark == q then Name(text) else Str(text), Lex(r, q).value))
  {
    LexClose(r, q);
    LexQuoted(mark, text, SignText(')', r), q);
    LexOpen(NameText(mark, text, SignText(')', r)), q);
    LexWord(LOWER, SignText('(', NameText(mark, text, SignText(')', r))), q);
  }

  lemma LexLoweredText(q: char, field: string, value: string, r: string)
    requires IsNameQuote(q) && FreeOf(field, q) && FreeOf(value, '\'') && IsClean(r) && Lex(r, q).Some?
    ensures Lex(LoweredText(q, field, value, r), q) ==
            Some(LoweredTokens(Name(field), Cons(Key(LIKE), LoweredTokens(Str(value), Lex(r, q).value))))
  {
    LexLowered('\'', value, r, q);
    var s := LowerValue(value, r);
    LexSpace(s, q);
    LexWord(LIKE, SignText(' ', s), q);
    LexSpace(WordText(LIKE, SignText(' ', s)), q);
    LexLowered(q, field, SignText(' ', WordText(LIKE, SignText(' ', s))), q);
  }

  lemma LexPlainText(q: char, field: string, test: ValueTest, value: string, r: string)
    requires IsNameQuote(q) && FreeOf(field, q) && FreeOf(value, '\'') && IsClean(r) && Lex(r, q).Some?
    ensures Lex(PlainText(q, field, test, value, r), q) ==
            Some(Cons(Name(field), OperatorTokens(test, Cons(Str(value), Lex(r, q).value))))
  {
    LexQuoted('\'', value, r, q);
    var s := NameText('\'', value, r);
    LexSpace(s, q);
    LexOperator(test, SignText(' ', s), q);
    LexSpace(OperatorText(test, SignText(' ', s)), q);
    LexQuoted(q, field, SignText(' ', OperatorText(test, SignText(' ', s))), q);
  }

  lemma LexNullTest(dialect: Dialect, filter: RowsFilter, r: string)
    requires !filter.ValueFilter? && IsQuotable(dialect, filter) && IsClean(r) && Lex(r, NameQuote(dialect)).Some?
    ensures Lex(FilterInParts(dialect, filter, r), NameQuote(dialect)) ==
            Some(FilterTokens(dialect, filter, Lex(r, NameQuote(dialect)).value))
  {
    var q := NameQuote(dialect);
    LexWord(NULL, r, q);
    var s := WordText(NULL, r);
    LexSpace(s, q);
    if filter.IsNotNullFilter? {
      LexWord(NOT, SignText(' ', s), q);
      s := WordText(NOT, SignText(' ', s));
      LexSpace(s, q);
    }
    LexWord(IS, SignText(' ', s), q);
    LexSpace(WordText(IS, SignText(' ', s)), q);
    LexQuoted(q, filter.field, SignText(' ', WordText(IS, SignText(' ', s))), q);
  }

  lemma LexFilter(dialect: Dialect, filter: RowsFilter, r: string)
    requires IsQuotable(dialect, filter) && IsClean(r) && Lex(r, NameQuote(dialect)).Some?
    ensures Lex(FilterText(dialect, filter) + r, NameQuote(dialect)) ==
            Some(FilterTokens(dialect, filter, Lex(r, NameQuote(dialect)).value))
  {
    var q := NameQuote(dialect);
    TextIsInParts(dialect, filter, r);
    if !filter.ValueFilter? {
      LexNullTest(dialect, filter, r);
    } else if dialect != Postgres && (filter.test == IsILike || filter.test == IsNotILike) {
      LexLoweredText(q, filter.field, filter.value, r);
      if filter.test == IsNotILike {
        LexSpace(LoweredText(q, filter.field, filter.value, r), q);
        LexWord(NOT, SignText(' ', LoweredText(q, filter.field, filter.value, r)), q);
      }
    } else {
      LexPlainText(q, filter.field, filter.test, filter.value, r);
    }
  }

  /** What a filter reads as. */
  function FilterExpr(dialect: Dialect, filter: RowsFilter): Expr {
    match filter
    case IsNullFilter(field) => IsNull(Column(field))
    case IsNotNullFilter(field) => Not(IsNull(Column(field)))
    case ValueFilter(field, test, value) =>
      var (x, y) := (Column(field), Literal(value));
      match test
      case IsEqual => Compare(Equal, x, y)
      case IsNotEqual => Compare(NotEqual, x, y)
      case IsGreater => Compare(Greater, x, y)
      case IsGreaterOrEqual => Compare(GreaterOrEqual, x, y)
      case IsLess => Compare(Less, x, y)
      case IsLessOrEqual => Compare(LessOrEqual, x, y)
      case IsLike => Like(x, y)
      case IsNotLike => Not(Like(x, y))
      case IsILike => if dialect == Postgres then ILike(x, y) else Like(Lower(x), Lower(y))
      case IsNotILike => Not(if dialect == Postgres then ILike(x, y) else Like(Lower(x), Lower(y)))
  }

  lemma ReadLowered(operand: Token, rest: List<Token>)
    requires operand.Name? || operand.Str?
    ensures ReadOperand(LoweredTokens(operand, rest)) ==
            Some((Lower(if operand.Name? then Column(operand.name) else Literal(operand.text)), rest))
  {
    assert ReadOperand(Cons(operand, Cons(Close, rest))).Some?;
  }

  lemma ReadLoweredLike(field: string, value: string, rest: List<Token>)
    ensures ReadFactor(LoweredTokens(Name(field), Cons(Key(LIKE), LoweredTokens(Str(value), rest)))) ==
            Some((Like(Lower(Column(field)), Lower(Literal(value))), rest))
  {
    ReadLowered(Str(value), rest);
    ReadLowered(Name(field), Cons(Key(LIKE), LoweredTokens(Str(value), rest)));
  }

  lemma ReadPlain(dialect: Dialect, field: string, test: ValueTest, value: string, rest: List<Token>)
    requires dialect == Postgres || (test != IsILike && test != IsNotILike)
    ensures ReadPredicate(Cons(Name(field), OperatorTokens(test, Cons(Str(value), rest)))) ==
            Some((FilterExpr(dialect, ValueFilter(field, test, value)), rest))
  {
    assert ReadOperand(Cons(Str(value), rest)) == Some((Literal(value), rest));
  }

  lemma ReadFilter(dialect: Dialect, filter: RowsFilter, rest: List<Token>)
    ensures ReadFactor(FilterTokens(dialect, filter, rest)) == Some((FilterExpr(dialect, filter), rest))
  {
    if filter.ValueFilter? {
      if dialect != Postgres && (filter.test == IsILike || filter.test == IsNotILike) {
        ReadLoweredLike(filter.field, filter.value, rest);
      } else {
        ReadPlain(dialect, filter.field, filter.test, filter.value, rest);
      }
    }
  }

  /** The lower-case form and the native form of a case-insensitive test. */
  lemma LoweredLikeIsILike(x: Operand, y: Operand, row: Row, c: Collation)
    requires KeepsWildcards(c.lower)
    ensures Eval(Like(Lower(x), Lower(y)), row, c) == Eval(ILike(x, y), row, c)
  {
    var s, t := ValueOf(x, row, c), ValueOf(y, row, c);
    assert ValueOf(Lower(x), row, c) == if s.Some? then Some(LowerText(s.value, c.lower)) else None;
    if s.Some? && t.Some? {
      LowerCaseMatches(s.value, t.value, c.lower);
    }
  }

  /** A filter's expression gives the verdict that the filter asks for, in every dialect. */
  lemma FilterMeansVerdict(dialect: Dialect, filter: RowsFilter, row: Row, c: Collation)
    requires KeepsWildcards(c.lower)
    ensures Eval(FilterExpr(dialect, filter), row, c) == Verdict(filter, row, c)
  {
    if filter.ValueFilter? {
      ValueFilterMeansVerdict(dialect, filter.field, filter.test, filter.value, row, c);
    }
  }

  lemma ValueFilterMeansVerdict(dialect: Dialect, field: string, test: ValueTest, value: string, row: Row, c: Collation)
    requires KeepsWildcards(c.lower)
    ensures Eval(FilterExpr(dialect, ValueFilter(field, test, value)), row, c) ==
            Verdict(ValueFilter(field, test, value), row, c)
  {
    var x, y := Column(field), Literal(value);
    if test == IsILike || test == IsNotILike {
      LoweredLikeIsILike(x, y, row, c);
      assert Eval(ILike(x, y), row, c) == Verdict(ValueFilter(field, IsILike, value), row, c);
      assert Negated(Eval(ILike(x, y), row, c)) == Verdict(ValueFilter(field, IsNotILike, value), row, c);
    } else if test == IsLike || test == IsNotLike {
      assert Eval(Like(x, y), row, c) == Verdict(ValueFilter(field, IsLike, value), row, c);
    }
  }

  function ConditionExpr(dialect: Dialect, filters: seq<RowsFilter>): Expr
    requires filters != []
  {
    if |filters| == 1 then FilterExpr(dialect, filters[0])
    else And(FilterExpr(dialect, filters[0]), ConditionExpr(dialect, filters[1..]))
  }

  function ConditionTokens(dialect: Dialect, filters: seq<RowsFilter>): List<Token>
    requires filters != []
  {
    if |filters| == 1 then FilterTokens(dialect, filters[0], Nil)
    else FilterTokens(dialect, filters[0], Cons(Key(AND), ConditionTokens(dialect, filters[1..])))
  }

  lemma AndInParts(text: string)
    ensures " AND " + text == SignText(' ', WordText(AND, SignText(' ', text)))
  {
    assert " AND " == [' '] + KeywordText(AND) + [' '];
  }

  lemma {:induction false} LexQuotable(dialect: Dialect, filters: seq<RowsFilter>)
    requires filters != [] && forall i | 0 <= i < |filters| :: IsQuotable(dialect, filters[i])
    ensures Lex(WhereText(dialect, filters), NameQuote(dialect)) == Some(ConditionTokens(dialect, filters))
  {
    var q := NameQuote(dialect);
    if |filters| == 1 {
      LexFilter(dialect, filters[0], "");
      assert FilterText(dialect, filters[0]) + "" == FilterText(dialect, filters[0]);
    } else {
      var tail := WhereText(dialect, filters[1..]);
      LexQuotable(dialect, filters[1..]);
      LexSpace(tail, q);
      LexWord(AND, SignText(' ', tail), q);
      LexSpace(WordText(AND, SignText(' ', tail)), q);
      AndInParts(tail);
      LexFilter(dialect, filters[0], " AND " + tail);
      Associate(FilterText(dialect, filters[0]), " AND ", tail);
    }
  }

  lemma {:induction false} ReadConditionTokens(dialect: Dialect, filters: seq<RowsFilter>)
    requires filters != []
    ensures ReadCondition(ConditionTokens(dialect, filters)) == Some(ConditionExpr(dialect, filters))
  {
    if |filters| == 1 {
      ReadFilter(dialect, filters[0], Nil);
    } else {
      ReadConditionTokens(dialect, filters[1..]);
      ReadFilter(dialect, filters[0], Cons(Key(AND), ConditionTokens(dialect, filters[1..])));
    }
  }

  // ---------------------------------------------------------------------------
  // Which filters read back
  // ---------------------------------------------------------------------------

  function QuotedOnce(text: string, quote: char, c: char): nat {
    Occurrences(text, c) + if c == quote then 2 else 0
  }

  lemma MarksOfName(q: char, name: string, r: string, c: char)
    ensures Occurrences(NameText(q, name, r), c) == QuotedOnce(name, q, c) + Occurrences(r, c)
  {
    OccurrencesCons(q, name + ([q] + r), c);
    OccurrencesAppend(name, [q] + r, c);
    OccurrencesCons(q, r, c);
  }

  lemma MarksOfWord(word: Keyword, r: string, c: char)
    requires !IsWordChar(c)
    ensures Occurrences(WordText(word, r), c) == Occurrences(r, c)
  {
    KeywordsAreKnown(word);
    WordsHaveNoMarks(KeywordText(word), c);
    OccurrencesAppend(KeywordText(word), r, c);
  }

  lemma MarksOfSign(sign: char, r: string, c: char)
    ensures Occurrences(SignText(sign, r), c) == (if c == sign then 1 else 0) + Occurrences(r, c)
  {
    OccurrencesCons(sign, r, c);
  }

  lemma MarksOfOperator(test: ValueTest, r: string, c: char)
    requires !IsWordChar(c) && c != ' '
    ensures Occurrences(OperatorText(test, r), c) == Occurrences(r, c)
  {
    match test
    case IsEqual => MarksOfWord(EQ, r, c);
    case IsNotEqual => MarksOfWord(NE, r, c);
    case IsGreater => MarksOfWord(GT, r, c);
    case IsGreaterOrEqual => MarksOfWord(GE, r, c);
    case IsLess => MarksOfWord(LT, r, c);
    case IsLessOrEqual => MarksOfWord(LE, r, c);
    case IsLike => MarksOfWord(LIKE, r, c);
    case IsILike => MarksOfWord(ILIKE, r, c);
    case IsNotLike =>
      MarksOfWord(NOT, SignText(' ', WordText(LIKE, r)), c);
      MarksOfSign(' ', WordText(LIKE, r), c);
      MarksOfWord(LIKE, r, c);
    case IsNotILike =>
      MarksOfWord(NOT, SignText(' ', WordText(ILIKE, r)), c);
      MarksOfSign(' ', WordText(ILIKE, r), c);
      MarksOfWord(ILIKE, r, c);
  }

  /** The quotes that are written for a filter. */
  function WrittenMarks(dialect: Dialect, filter: RowsFilter, c: char): nat {
    QuotedOnce(filter.field, NameQuote(dialect), c) +
    if filter.ValueFilter? then QuotedOnce(filter.value, '\'', c) else 0
  }

  lemma MarksOfPlain(q: char, field: string, test: ValueTest, value: string, r: string, c: char)
    requires IsMark(c, q)
    ensures Occurrences(PlainText(q, field, test, value, r), c) ==
            QuotedOnce(field, q, c) + QuotedOnce(value, '\'', c) + Occurrences(r, c)
  {
    var last := NameText('\'', value, r);
    MarksOfName('\'', value, r, c);
    MarksOfSign(' ', last, c);
    MarksOfOperator(test, SignText(' ', last), c);
    MarksOfSign(' ', OperatorText(test, SignText(' ', last)), c);
    MarksOfName(q, field, SignText(' ', OperatorText(test, SignText(' ', last))), c);
  }

  lemma MarksOfLowered(quote: char, text: string, r: string, c: char)
    requires !IsWordChar(c) && c != ' ' && c != '(' && c != ')'
    ensures Occurrences(WordText(LOWER, SignText('(', NameText(quote, text, SignText(')', r)))), c) ==
            QuotedOnce(text, quote, c) + Occurrences(r, c)
  {
    MarksOfSign(')', r, c);
    MarksOfName(quote, text, SignText(')', r), c);
    MarksOfSign('(', NameText(quote, text, SignText(')', r)), c);
    MarksOfWord(LOWER, SignText('(', NameText(quote, text, SignText(')', r))), c);
  }

  lemma MarksOfLoweredText(q: char, field: string, value: string, r: string, c: char)
    requires IsMark(c, q)
    ensures Occurrences(LoweredText(q, field, value, r), c) ==
            QuotedOnce(field, q, c) + QuotedOnce(value, '\'', c) + Occurrences(r, c)
  {
    var last := LowerValue(value, r);
    MarksOfLowered('\'', value, r, c);
    MarksOfSign(' ', last, c);
    MarksOfWord(LIKE, SignText(' ', last), c);
    MarksOfSign(' ', WordText(LIKE, SignText(' ', last)), c);
    MarksOfLowered(q, field, SignText(' ', WordText(LIKE, SignText(' ', last))), c);
  }

  lemma MarksOfNullTest(dialect: Dialect, filter: RowsFilter, r: string, c: char)
    requires IsMark(c, NameQuote(dialect)) && !filter.ValueFilter?
    ensures Occurrences(FilterInParts(dialect, filter, r), c) == WrittenMarks(dialect, filter, c) + Occurrences(r, c)
  {
    var s := WordText(NULL, r);
    MarksOfWord(NULL, r, c);
    MarksOfSign(' ', s, c);
    if filter.IsNotNullFilter? {
      MarksOfWord(NOT, SignText(' ', s), c);
      s := WordText(NOT, SignText(' ', s));
      MarksOfSign(' ', s, c);
    }
    MarksOfWord(IS, SignText(' ', s), c);
    MarksOfSign(' ', WordText(IS, SignText(' ', s)), c);
    MarksOfName(NameQuote(dialect), filter.field, SignText(' ', WordText(IS, SignText(' ', s))), c);
  }

  lemma MarksOfFilter(dialect: Dialect, filter: RowsFilter, r: string, c: char)
    requires IsMark(c, NameQuote(dialect))
    ensures Occurrences(FilterText(dialect, filter) + r, c) == WrittenMarks(dialect, filter, c) + Occurrences(r, c)
  {
    var q := NameQuote(dialect);
    TextIsInParts(dialect, filter, r);
    if !filter.ValueFilter? {
      MarksOfNullTest(dialect, filter, r, c);
    } else if dialect != Postgres && (filter.test == IsILike || filter.test == IsNotILike) {
      MarksOfLoweredText(q, filter.field, filter.value, r, c);
      MarksOfSign(' ', LoweredText(q, filter.field, filter.value, r), c);
      MarksOfWord(NOT, SignText(' ', LoweredText(q, filter.field, filter.value, r)), c);
    } else {
      MarksOfPlain(q, filter.field, filter.test, filter.value, r, c);
    }
  }

  /** The quotes inside names and values that are not doubled but should be. */
  function MissingMarks(dialect: Dialect, filter: RowsFilter, c: char): nat {
    (if c == NameQuote(dialect) then Occurrences(filter.field, c) else 0) +
    if filter.ValueFilter? && c == '\'' then Occurrences(filter.value, c) else 0
  }

  function AllMissing(dialect: Dialect, filters: seq<RowsFilter>, c: char): nat {
    if filters == [] then 0 else MissingMarks(dialect, filters[0], c) + AllMissing(dialect, filters[1..], c)
  }

  lemma LoweredKeepsMarks(x: Operand, y: Operand, q: char, c: char)
    ensures ExprMarks(Like(Lower(x), Lower(y)), q, c) == OperandMarks(x, q, c) + OperandMarks(y, q, c)
    ensures ExprMarks(Not(Like(Lower(x), Lower(y))), q, c) == OperandMarks(x, q, c) + OperandMarks(y, q, c)
  {
    assert OperandMarks(Lower(x), q, c) == OperandMarks(x, q, c) &&
           OperandMarks(Lower(y), q, c) == OperandMarks(y, q, c);
    assert ExprMarks(Like(Lower(x), Lower(y)), q, c) == OperandMarks(Lower(x), q, c) + OperandMarks(Lower(y), q, c);
  }

  lemma ExprMarksOfValueFilter(dialect: Dialect, field: string, test: ValueTest, value: string, c: char)
    ensures ExprMarks(FilterExpr(dialect, ValueFilter(field, test, value)), NameQuote(dialect), c) ==
            OperandMarks(Column(field), NameQuote(dialect), c) + OperandMarks(Literal(value), NameQuote(dialect), c)
  {
    if test == IsILike || test == IsNotILike {
      LoweredKeepsMarks(Column(field), Literal(value), NameQuote(dialect), c);
    }
  }

  lemma ExprMarksOfFilter(dialect: Dialect, filter: RowsFilter, c: char)
    ensures ExprMarks(FilterExpr(dialect, filter), NameQuote(dialect), c) ==
            WrittenMarks(dialect, filter, c) + MissingMarks(dialect, filter, c)
  {
    if filter.ValueFilter? {
      ExprMarksOfValueFilter(dialect, filter.field, filter.test, filter.value, c);
    }
  }

  lemma MarksBehindAnd(tail: string, c: char)
    requires !IsWordChar(c) && c != ' '
    ensures Occurrences(" AND " + tail, c) == Occurrences(tail, c)
  {
    AndInParts(tail);
    MarksOfSign(' ', tail, c);
    MarksOfWord(AND, SignText(' ', tail), c);
    MarksOfSign(' ', WordText(AND, SignText(' ', tail)), c);
  }

  lemma MarksOfFirst(dialect: Dialect, filters: seq<RowsFilter>, c: char)
    requires |filters| > 1 && IsMark(c, NameQuote(dialect))
    ensures Occurrences(WhereText(dialect, filters), c) ==
            WrittenMarks(dialect, filters[0], c) + Occurrences(WhereText(dialect, filters[1..]), c)
  {
    var first, tail := FilterText(dialect, filters[0]), WhereText(dialect, filters[1..]);
    MarksBehindAnd(tail, c);
    MarksOfFilter(dialect, filters[0], " AND " + tail, c);
    Associate(first, " AND ", tail);
  }

  lemma MarksOfOnly(dialect: Dialect, filter: RowsFilter, c: char)
    requires IsMark(c, NameQuote(dialect))
    ensures Occurrences(FilterText(dialect, filter), c) == WrittenMarks(dialect, filter, c)
  {
    MarksOfFilter(dialect, filter, "", c);
    assert FilterText(dialect, filter) + "" == FilterText(dialect, filter);
  }

  function AllWritten(dialect: Dialect, filters: seq<RowsFilter>, c: char): nat {
    if filters == [] then 0 else WrittenMarks(dialect, filters[0], c) + AllWritten(dialect, filters[1..], c)
  }

  lemma {:induction false} MarksOfWhere(dialect: Dialect, filters: seq<RowsFilter>, c: char)
    requires filters != [] && IsMark(c, NameQuote(dialect))
    ensures Occurrences(WhereText(dialect, filters), c) == AllWritten(dialect, filters, c)
  {
    if |filters| == 1 {
      MarksOfOnly(dialect, filters[0], c);
      assert AllWritten(dialect, filters[1..], c) == 0;
    } else {
      MarksOfWhere(dialect, filters[1..], c);
      MarksOfFirst(dialect, filters, c);
    }
  }

  /** What is written for a list of filters lacks exactly the missing quotes. */
  lemma {:induction false} MarksOfCondition(dialect: Dialect, filters: seq<RowsFilter>, c: char)
    requires filters != []
    ensures ExprMarks(ConditionExpr(dialect, filters), NameQuote(dialect), c) ==
            AllWritten(dialect, filters, c) + AllMissing(dialect, filters, c)
  {
    ExprMarksOfFilter(dialect, filters[0], c);
    if |filters| == 1 {
      assert AllWritten(dialect, filters[1..], c) == 0 && AllMissing(dialect, filters[1..], c) == 0;
    } else {
      MarksOfCondition(dialect, filters[1..], c);
    }
  }

  lemma {:induction false} NoneMissingIff(dialect: Dialect, filters: seq<RowsFilter>)
    ensures AllMissing(dialect, filters, '\'') == 0 && AllMissing(dialect, filters, NameQuote(dialect)) == 0 <==>
            forall i | 0 <= i < |filters| :: IsQuotable(dialect, filters[i])
  {
    if filters != [] {
      NoneMissingIff(dialect, filters[1..]);
      NoOccurrences(filters[0].field, NameQuote(dialect));
      if filters[0].ValueFilter? {
        NoOccurrences(filters[0].value, '\'');
      }
      assert forall i | 1 <= i < |filters| :: filters[i] == filters[1..][i - 1];
    }
  }

  /**
   The expression is read back as the filters it was written from exactly when no name or value
   has the quote around it.
   */
  lemma WhereReadsBackIff(dialect: Dialect, filters: seq<RowsFilter>)
    requires filters != []
    ensures ReadWhere(WhereText(dialect, filters), NameQuote(dialect)) == Some(ConditionExpr(dialect, filters)) <==>
            forall i | 0 <= i < |filters| :: IsQuotable(dialect, filters[i])
  {
    var s, q := WhereText(dialect, filters), NameQuote(dialect);
    NoneMissingIff(dialect, filters);
    if ReadWhere(s, q) == Some(ConditionExpr(dialect, filters)) {
      forall c | IsMark(c, q)
        ensures AllMissing(dialect, filters, c) == 0
      {
        LexMarks(s, q, c);
        ConditionKeepsMarks(Lex(s, q).value, q, c);
        MarksOfWhere(dialect, filters, c);
        MarksOfCondition(dialect, filters, c);
      }
    } else if forall i | 0 <= i < |filters| :: IsQuotable(dialect, filters[i]) {
      LexQuotable(dialect, filters);
      ReadConditionTokens(dialect, filters);
    }
  }

  /** The tokens are those of the filters under the same condition. */
  lemma LexWhere(dialect: Dialect, filters: seq<RowsFilter>)
    requires filters != []
    ensures Lex(WhereText(dialect, filters), NameQuote(dialect)) == Some(ConditionTokens(dialect, filters)) <==>
            forall i | 0 <= i < |filters| :: IsQuotable(dialect, filters[i])
  {
    ReadConditionTokens(dialect, filters);
    WhereReadsBackIff(dialect, filters);
    if forall i | 0 <= i < |filters| :: IsQuotable(dialect, filters[i]) {
      LexQuotable(dialect, filters);
    }
  }

  /** Text, an apostrophe, AND, and the beginning of another filter. */
  function TwoInOne(dialect: Dialect, first: string, field: string, second: string): string {
    first + (("'" + " AND ") + ((QuoteField(dialect, field) + " = '") + second))
  }

  lemma EqualityText(dialect: Dialect, field: string, value: string)
    ensures FilterText(dialect, ValueFilter(field, IsEqual, value)) ==
            (QuoteField(dialect, field) + " = '") + value + "'"
  {
    var name := QuoteField(dialect, field);
    assert " " + "=" + " '" == " = '";
    Associate(name + " ", "=", " '");
    Associate(name, " ", "=" + " '");
    Associate(" ", "=", " '");
  }

  lemma TwoInOneText(dialect: Dialect, field: string, first: string, other: string, second: string)
    ensures WhereText(dialect, [ValueFilter(field, IsEqual, TwoInOne(dialect, first, other, second))]) ==
            WhereText(dialect, [ValueFilter(field, IsEqual, first), ValueFilter(other, IsEqual, second)])
  {
    var two := [ValueFilter(field, IsEqual, first), ValueFilter(other, IsEqual, second)];
    assert two[1..] == [two[1]];
    EqualityText(dialect, field, TwoInOne(dialect, first, other, second));
    EqualityText(dialect, field, first);
    EqualityText(dialect, other, second);
    var head, name := QuoteField(dialect, field) + " = '", QuoteField(dialect, other) + " = '";
    RegroupTwo(head, first, "'", " AND ", name, second, "'");
  }

  lemma RegroupTwo(a: string, b: string, c: string, d: string, e: string, f: string, g: string)
    ensures a + (b + ((c + d) + (e + f))) + g == a + b + c + d + (e + f + g)
  {
    Associate(a, b, (c + d) + (e + f));
    Associate(a + b, c + d, e + f);
    Associate(a + b, c, d);
    Associate(a + b + c + d, e + f, g);
  }

  /** A value with an apostrophe in the wrong place: one filter is read as two. */
  lemma ValueReadsAsTwoFilters(dialect: Dialect, field: string, first: string, other: string, second: string)
    requires FreeOf(field, NameQuote(dialect)) && FreeOf(other, NameQuote(dialect))
    requires FreeOf(first, '\'') && FreeOf(second, '\'')
    ensures var one := [ValueFilter(field, IsEqual, TwoInOne(dialect, first, other, second))];
            var two := [ValueFilter(field, IsEqual, first), ValueFilter(other, IsEqual, second)];
            ReadWhere(WhereText(dialect, one), NameQuote(dialect)) == Some(ConditionExpr(dialect, two))
  {
    TwoInOneText(dialect, field, first, other, second);
    WhereReadsBackIff(dialect, [ValueFilter(field, IsEqual, first), ValueFilter(other, IsEqual, second)]);
  }

  lemma {:induction false} ConditionMeansAll(dialect: Dialect, filters: seq<RowsFilter>, row: Row, c: Collation)
    requires filters != [] && KeepsWildcards(c.lower)
    ensures Eval(ConditionExpr(dialect, filters), row, c) == AllVerdicts(filters, row, c)
  {
    FilterMeansVerdict(dialect, filters[0], row, c);
    if |filters| > 1 {
      ConditionMeansAll(dialect, filters[1..], row, c);
    } else {
      assert AllVerdicts(filters[1..], row, c) == True;
    }
  }

  /** Read as SQL, the expression of any dialect evaluates to the conjunction of the filters, on every row. */
  lemma WhereMeansAllFilters(dialect: Dialect, filters: seq<RowsFilter>, row: Row, c: Collation)
    requires filters != [] && KeepsWildcards(c.lower)
    requires forall i | 0 <= i < |filters| :: IsQuotable(dialect, filters[i])
    ensures var expr := ReadWhere(WhereText(dialect, filters), NameQuote(dialect));
            expr.Some? && Eval(expr.value, row, c) == AllVerdicts(filters, row, c)
  {
    WhereReadsBackIff(dialect, filters);
    ConditionMeansAll(dialect, filters, row, c);
  }

  /** So all dialects keep the same rows: those for which every filter holds. */
  lemma DialectsAgree(one: Dialect, other: Dialect, filters: seq<RowsFilter>, row: Row, c: Collation)
    requires filters != [] && KeepsWildcards(c.lower)
    requires forall i | 0 <= i < |filters| :: IsQuotable(one, filters[i]) && IsQuotable(other, filters[i])
    ensures var a, b := ReadWhere(WhereText(one, filters), NameQuote(one)),
                        ReadWhere(WhereText(other, filters), NameQuote(other));
            && a.Some? && b.Some? && Eval(a.value, row, c) == Eval(b.value, row, c)
            && (Eval(a.value, row, c) == True <==> forall i | 0 <= i < |filters| :: Verdict(filters[i], row, c) == True)
  {
    WhereMeansAllFilters(one, filters, row, c);
    WhereMeansAllFilters(other, filters, row, c);
    AllVerdictsTrueIff(filters, row, c);
  }

  /**
   From the transformations of a transfer to the rows that come across: without any filter there
   is no expression and all rows pass; otherwise the expression is true of exactly the rows that
   pass every filter of every row-filter transformation.
   */
  lemma WhereMeansTransformations(dialect: Dialect, ts: seq<Transformation>, row: Row, c: Collation)
    requires KeepsWildcards(c.lower)
    requires forall i | 0 <= i < |Collected(ts)| :: IsQuotable(dialect, Collected(ts)[i])
    ensures Total(ts) == 0 <==> Collected(ts) == []
    ensures Total(ts) == 0 ==> PassesAll(ts, row, c)
    ensures Total(ts) > 0 ==>
            var expr := ReadWhere(WhereText(dialect, Collected(ts)), NameQuote(dialect));
            expr.Some? && (Eval(expr.value, row, c) == True <==> PassesAll(ts, row, c))
  {
    NoFilterIsLost(ts);
    CollectedMeansAll(ts, row, c);
    if Collected(ts) != [] {
      WhereMeansAllFilters(dialect, Collected(ts), row, c);
    }
  }
}
