/**
 Row filters of a transfer, collected from its transformations and written as the WHERE
 expression of each database.
 */
module Filters {
  import opened Sql
  import opened Text
  import opened Wrappers

  datatype ValueTest =
    | IsEqual | IsNotEqual | IsGreater | IsGreaterOrEqual | IsLess | IsLessOrEqual
    | IsLike | IsILike | IsNotLike | IsNotILike

  datatype RowsFilter =
    | IsNullFilter(field: string)
    | IsNotNullFilter(field: string)
    | ValueFilter(field: string, test: ValueTest, value: string)

  datatype Transformation =
    | DataframeRowsFilter(filters: seq<RowsFilter>)
    | DataframeColumnsFilter
    | FileMetadataFilter
    | SqlQuery(query: string)

  // ---------------------------------------------------------------------------
  // Collecting
  // ---------------------------------------------------------------------------

  function FiltersOf(transformation: Transformation): seq<RowsFilter> {
    match transformation
    case DataframeRowsFilter(filters) => filters
    case _ => []
  }

  function Collected(transformations: seq<Transformation>): seq<RowsFilter> {
    if transformations == [] then []
    else Collected(transformations[..|transformations| - 1]) + FiltersOf(transformations[|transformations| - 1])
  }

  method CollectRowFilters(transformations: seq<Transformation>) returns (expressions: seq<RowsFilter>)
    ensures expressions == Collected(transformations)
  {
    expressions := [];
    for i := 0 to |transformations|
      invariant expressions == Collected(transformations[..i])
    {
      assert transformations[..i + 1][..i] == transformations[..i];
      if transformations[i].DataframeRowsFilter? {
        expressions := expressions + transformations[i].filters;
      }
    }
    assert transformations[..|transformations|] == transformations;
  }

  // ---------------------------------------------------------------------------
  // Writing
  // ---------------------------------------------------------------------------

  datatype Dialect = Postgres | Hive | MySQL | Oracle

  function NameQuote(dialect: Dialect): (c: char)
    ensures c == '"' || c == '`'
  {
    match dialect
    case Hive => '`'
    case MySQL => '`'
    case _ => '"'
  }

  function QuoteField(dialect: Dialect, field: string): string {
    [NameQuote(dialect)] + field + [NameQuote(dialect)]
  }

  function Operator(test: ValueTest): string {
    match test
    case IsEqual => "="
    case IsNotEqual => "!="
    case IsGreater => ">"
    case IsGreaterOrEqual => ">="
    case IsLess => "<"
    case IsLessOrEqual => "<="
    case IsLike => "LIKE"
    case IsILike => "ILIKE"
    case IsNotLike => "NOT LIKE"
    case IsNotILike => "NOT ILIKE"
  }

  /** Only Postgres has ILIKE; the others compare the lower-case forms. */
  function ValueFilterText(dialect: Dialect, field: string, test: ValueTest, value: string): string {
    if dialect != Postgres && test == IsILike then "LOWER(" + field + ") LIKE LOWER('" + value + "')"
    else if dialect != Postgres && test == IsNotILike then "NOT LOWER(" + field + ") LIKE LOWER('" + value + "')"
    else field + " " + Operator(test) + " '" + value + "'"
  }

  function FilterText(dialect: Dialect, filter: RowsFilter): string {
    var field := QuoteField(dialect, filter.field);
    match filter
    case IsNullFilter(_) => field + " IS NULL"
    case IsNotNullFilter(_) => field + " IS NOT NULL"
    case ValueFilter(_, test, value) => ValueFilterText(dialect, field, test, value)
  }

  function WhereText(dialect: Dialect, filters: seq<RowsFilter>): string
    requires filters != []
  {
    if |filters| == 1 then FilterText(dialect, filters[0])
    else FilterText(dialect, filters[0]) + " AND " + WhereText(dialect, filters[1..])
  }

  function FilterTexts(dialect: Dialect, filters: seq<RowsFilter>): (texts: seq<string>)
    ensures |texts| == |filters| && forall i | 0 <= i < |filters| :: texts[i] == FilterText(dialect, filters[i])
  {
    seq(|filters|, i requires 0 <= i < |filters| => FilterText(dialect, filters[i]))
  }

  lemma {:induction false} JoinIsWhereText(dialect: Dialect, filters: seq<RowsFilter>)
    requires filters != []
    ensures Join(FilterTexts(dialect, filters), " AND ") == WhereText(dialect, filters)
  {
    if |filters| > 1 {
      JoinIsWhereText(dialect, filters[1..]);
      assert FilterTexts(dialect, filters)[1..] == FilterTexts(dialect, filters[1..]);
    }
  }

  /** No expression at all when there is nothing to filter by. */
  method MakeRowsFilterExpression(dialect: Dialect, filters: seq<RowsFilter>) returns (expression: Option<string>)
    ensures expression == if filters == [] then None else Some(WhereText(dialect, filters))
  {
    var expressions: seq<string> := [];
    for i := 0 to |filters|
      invariant expressions == FilterTexts(dialect, filters[..i])
    {
      var field := QuoteField(dialect, filters[i].field);
      match filters[i] {
        case IsNullFilter(_) =>
          expressions := expressions + [field + " IS NULL"];
        case IsNotNullFilter(_) =>
          expressions := expressions + [field + " IS NOT NULL"];
        case ValueFilter(_, test, value) =>
          if dialect == Postgres {
            expressions := expressions + [field + " " + Operator(test) + " '" + value + "'"];
          } else if test == IsILike {
            expressions := expressions + ["LOWER(" + field + ") LIKE LOWER('" + value + "')"];
          } else if test == IsNotILike {
            expressions := expressions + ["NOT LOWER(" + field + ") LIKE LOWER('" + value + "')"];
          } else {
            expressions := expressions + [field + " " + Operator(test) + " '" + value + "'"];
          }
      }
      assert filters[..i + 1][..i] == filters[..i];
    }
    assert filters[..|filters|] == filters;
    if expressions == [] {
      return None;
    }
    JoinIsWhereText(dialect, filters);
    return Some(Join(expressions, " AND "));
  }

  // ---------------------------------------------------------------------------
  // What the filters ask for
  // ---------------------------------------------------------------------------

  function Passes(test: ValueTest, cell: string, value: string, c: Collation): bool {
    match test
    case IsEqual => c.holds(Equal, cell, value)
    case IsNotEqual => c.holds(NotEqual, cell, value)
    case IsGreater => c.holds(Greater, cell, value)
    case IsGreaterOrEqual => c.holds(GreaterOrEqual, cell, value)
    case IsLess => c.holds(Less, cell, value)
    case IsLessOrEqual => c.holds(LessOrEqual, cell, value)
    case IsLike => Matches(cell, value, Exactly)
    case IsNotLike => !Matches(cell, value, Exactly)
    case IsILike => Matches(cell, value, IgnoringCase(c.lower))
    case IsNotILike => !Matches(cell, value, IgnoringCase(c.lower))
  }

  /** A filter by value says nothing about a row without one. */
  function Verdict(filter: RowsFilter, row: Row, c: Collation): Truth {
    match filter
    case IsNullFilter(field) => Known(row(field).None?)
    case IsNotNullFilter(field) => Known(row(field).Some?)
    case ValueFilter(field, test, value) =>
      if row(field).None? then Unknown else Known(Passes(test, row(field).value, value, c))
  }

  function AllVerdicts(filters: seq<RowsFilter>, row: Row, c: Collation): Truth {
    if filters == [] then True else Both(Verdict(filters[0], row, c), AllVerdicts(filters[1..], row, c))
  }

  /** A row passes exactly when every single filter says so. */
  lemma {:induction false} AllVerdictsTrueIff(filters: seq<RowsFilter>, row: Row, c: Collation)
    ensures AllVerdicts(filters, row, c) == True <==>
            forall i | 0 <= i < |filters| :: Verdict(filters[i], row, c) == True
  {
    if filters != [] {
      AllVerdictsTrueIff(filters[1..], row, c);
      assert forall i | 1 <= i < |filters| :: filters[i] == filters[1..][i - 1];
    }
  }

  /** Every single filter that some transformation of the transfer asks for is true of the row. */
  ghost predicate PassesAll(transformations: seq<Transformation>, row: Row, c: Collation) {
    forall i, j | 0 <= i < |transformations| && transformations[i].DataframeRowsFilter? &&
                  0 <= j < |transformations[i].filters| ::
      Verdict(transformations[i].filters[j], row, c) == True
  }

  function Total(transformations: seq<Transformation>): nat {
    if transformations == [] then 0
    else
      (if transformations[0].DataframeRowsFilter? then |transformations[0].filters| else 0) +
        Total(transformations[1..])
  }

  lemma {:induction false} TotalOfFront(transformations: seq<Transformation>)
    requires transformations != []
    ensures var n := |transformations| - 1;
            Total(transformations) == Total(transformations[..n]) + |FiltersOf(transformations[n])|
  {
    var n := |transformations| - 1;
    if n > 0 {
      TotalOfFront(transformations[1..]);
      assert transformations[1..][..n - 1] == transformations[..n][1..];
    }
  }

  /** As many filters are collected as the transformations have together. */
  lemma {:induction false} NoFilterIsLost(transformations: seq<Transformation>)
    ensures |Collected(transformations)| == Total(transformations)
  {
    if transformations != [] {
      NoFilterIsLost(transformations[..|transformations| - 1]);
      TotalOfFront(transformations);
    }
  }

  lemma AllTrueAppend(a: seq<RowsFilter>, b: seq<RowsFilter>, row: Row, c: Collation)
    ensures AllVerdicts(a + b, row, c) == True <==> AllVerdicts(a, row, c) == True && AllVerdicts(b, row, c) == True
  {
    AllVerdictsTrueIff(a + b, row, c);
    AllVerdictsTrueIff(a, row, c);
    AllVerdictsTrueIff(b, row, c);
    assert forall i | 0 <= i < |b| :: (a + b)[|a| + i] == b[i];
    assert forall i | 0 <= i < |a| :: (a + b)[i] == a[i];
  }

  lemma PassesAllOfFront(transformations: seq<Transformation>, row: Row, c: Collation)
    requires transformations != []
    ensures var n := |transformations| - 1;
            PassesAll(transformations, row, c) <==>
              && PassesAll(transformations[..n], row, c)
              && AllVerdicts(FiltersOf(transformations[n]), row, c) == True
  {
    var n := |transformations| - 1;
    AllVerdictsTrueIff(FiltersOf(transformations[n]), row, c);
    assert forall i | 0 <= i < n :: transformations[..n][i] == transformations[i];
  }

  /** A row passes what was collected exactly when it passes each filter of each row-filter transformation. */
  lemma {:induction false} CollectedMeansAll(transformations: seq<Transformation>, row: Row, c: Collation)
    ensures AllVerdicts(Collected(transformations), row, c) == True <==> PassesAll(transformations, row, c)
  {
    if transformations != [] {
      var n := |transformations| - 1;
      CollectedMeansAll(transformations[..n], row, c);
      AllTrueAppend(Collected(transformations[..n]), FiltersOf(transformations[n]), row, c);
      PassesAllOfFront(transformations, row, c);
    }
  }
}
