/**
 * `fetchResult` and `countResult`: the statement that is sent to the
 * database, and how the number of matching rows is obtained. The database
 * itself is a parameter: the quoting function, the number of rows a
 * statement returns and the first column of its first row.
 */
module Counting {
  import opened Outcomes
  import opened Strings
  import opened OrderedMaps
  import opened QueryModel
  import opened Clauses
  import opened Compiler
  import opened Substitution

  /** The statement `fetchResult` executes, placeholders filled in. */
  function FetchStatement(b: Backend, quote: string -> string): Result<string, Error> {
    var acc :- QuerySql(b);
    Substitute(BuildQuery(acc.sql), acc.parameters, quote)
  }

  /** The COUNT statement `countResult` executes when there is no limit, placeholders filled in. */
  function CountStatement(b: Backend, quote: string -> string): Result<string, Error> {
    var acc :- QuerySql(b);
    Substitute(BuildQuery(CountParts(acc.sql, b.query.distinct)), acc.parameters, quote)
  }

  /** The first value of `$sql['tables']` (`reset`), "" for an empty array. */
  function FirstTable(sql: Parts): string {
    if sql.tables == [] then "" else sql.tables[0].1
  }

  /**
   * The statement parts `countResult` uses when there is no limit: a single
   * COUNT field, no orderings, and for a DISTINCT query a count of distinct
   * values of the distinct field (or `uid`) of the first table.
   */
  function CountParts(sql: Parts, distinctField: string): (r: Parts)
    ensures r.orderings == [] && |r.fields| == 1 && !r.distinct
    ensures r == sql.(distinct := false, fields := r.fields, orderings := [])
    ensures !sql.distinct ==> r.fields == [("0", "COUNT(*)")]
    ensures sql.distinct ==>
              r.fields[0].1 == "COUNT(DISTINCT " + FirstTable(sql) + "." + (if PhpEmpty(distinctField) then "uid" else distinctField) + ")"
  {
    var counted := sql.(fields := [("0", "COUNT(*)")], orderings := []);
    if sql.distinct then
      var field := if PhpEmpty(distinctField) then "uid" else distinctField;
      counted.(distinct := false, fields := [("0", "COUNT(DISTINCT " + FirstTable(sql) + "." + field + ")")])
    else counted
  }

  /**
   * `countResult`. With a limit the full statement is run and its rows are
   * counted (COUNT(*) would ignore the limit); otherwise the COUNT statement
   * is run and its first column is the count (0 when there is no row).
   */
  function CountResult(b: Backend, quote: string -> string, numRows: string -> nat, firstColumn: string -> Option<int>)
    : (r: Result<int, Error>)
    ensures QuerySql(b).Err? ==> r == Err(QuerySql(b).error)
    ensures QuerySql(b).Ok? && !LimitEmpty(QuerySql(b).value.sql.limit) ==>
              (r.Ok? <==> FetchStatement(b, quote).Ok?)
              && (r.Ok? ==> r.value == numRows(FetchStatement(b, quote).value))
    ensures QuerySql(b).Ok? && LimitEmpty(QuerySql(b).value.sql.limit) ==>
              (r.Ok? <==> CountStatement(b, quote).Ok?)
              && (r.Ok? ==> r.value == firstColumn(CountStatement(b, quote).value).GetOr(0))
  {
    var acc :- QuerySql(b);
    if !LimitEmpty(acc.sql.limit) then
      var statement :- Substitute(BuildQuery(acc.sql), acc.parameters, quote);
      Ok(numRows(statement))
    else
      var statement :- Substitute(BuildQuery(CountParts(acc.sql, b.query.distinct)), acc.parameters, quote);
      Ok(firstColumn(statement).GetOr(0))
  }

  /**
   * The COUNT statement has the placeholders of the full statement: dropping
   * the orderings and replacing the fields changes only mark-free parts.
   */
  lemma CountKeepsMarks(sql: Parts, distinctField: string)
    requires MarksOnlyInWhere(sql)
    requires '?' !in FirstTable(sql) && '?' !in distinctField
    ensures MarksOnlyInWhere(CountParts(sql, distinctField))
    ensures Count(BuildQuery(CountParts(sql, distinctField)), '?') == Count(BuildQuery(sql), '?')
  {
    var r := CountParts(sql, distinctField);
    var f := r.fields[0].1;
    if sql.distinct {
      var field := if PhpEmpty(distinctField) then "uid" else distinctField;
      assert f == "COUNT(DISTINCT " + FirstTable(sql) + "." + field + ")";
      assert '?' !in f;
    }
    assert r.fields == [r.fields[0]];
    BuildQueryMarks(r);
    BuildQueryMarks(sql);
  }

  /**
   * Without a limit the count is taken from the COUNT statement, which
   * succeeds exactly when the full statement does.
   */
  lemma CountWithoutLimit(b: Backend, quote: string -> string, numRows: string -> nat, firstColumn: string -> Option<int>)
    requires QuerySql(b).Ok? && LimitEmpty(QuerySql(b).value.sql.limit)
    requires MarksOnlyInWhere(QuerySql(b).value.sql)
    requires '?' !in FirstTable(QuerySql(b).value.sql) && '?' !in b.query.distinct
    ensures CountResult(b, quote, numRows, firstColumn).Ok? <==> FetchStatement(b, quote).Ok?
    ensures CountStatement(b, quote).Ok? <==> FetchStatement(b, quote).Ok?
  {
    CountKeepsMarks(QuerySql(b).value.sql, b.query.distinct);
  }
}
