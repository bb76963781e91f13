/**
 * The clause-part accumulator of `parseQuery` (`$sql` with its keys
 * keywords, tables, unions, fields, where, additionalWhereClause, orderings
 * and limit), the statement text `buildQuery` makes of it, and the two small
 * clause builders `parseLimitAndOffset` and `parseIdentifier`.
 */
module Clauses {
  import opened Outcomes
  import opened Strings
  import opened OrderedMaps

  /**
   * `$sql['limit']`: never set, set to `intval($limit)`, or set to the text
   * "offset, limit".
   */
  datatype LimitPart = NoLimit | Rows(n: int) | Window(offset: int, count: int)

  /** `empty($sql['limit'])`: an unset limit, and the integer 0. */
  predicate LimitEmpty(l: LimitPart) {
    l.NoLimit? || (l.Rows? && l.n == 0)
  }

  function LimitText(l: LimitPart): string {
    match l
    case NoLimit => ""
    case Rows(n) => IntToString(n)
    case Window(o, n) => IntToString(o) + ", " + IntToString(n)
  }

  /**
   * The accumulator. `keywords` only ever holds the key 'distinct', so it is a
   * flag here; tables, unions and fields are PHP arrays keyed by table name.
   */
  datatype Parts = Parts(
    distinct: bool,
    tables: Entries,
    unions: Entries,
    fields: Entries,
    where: seq<string>,
    additionalWhereClause: seq<string>,
    orderings: seq<string>,
    limit: LimitPart)

  /** The accumulator as `parseQuery` creates it. */
  const EmptyParts := Parts(false, [], [], [], [], [], [], NoLimit)

  /** The WHERE clause: constraint fragments joined with '', scope clauses with ' AND '. */
  function WhereText(sql: Parts): string {
    if sql.where != [] then
      " WHERE " + Concat(sql.where)
      + (if sql.additionalWhereClause != [] then " AND " + Join(" AND ", sql.additionalWhereClause) else "")
    else if sql.additionalWhereClause != [] then
      " WHERE " + Join(" AND ", sql.additionalWhereClause)
    else ""
  }

  function SelectText(sql: Parts): string {
    "SELECT " + (if sql.distinct then "DISTINCT" else "") + " " + Join(",", Values(sql.fields))
    + " FROM " + Join(" ", Values(sql.tables)) + " " + Join(" ", Values(sql.unions))
  }

  function OrderText(sql: Parts): string {
    if sql.orderings != [] then " ORDER BY " + Join(", ", sql.orderings) else ""
  }

  /** " LIMIT ..." unless the limit is `empty()`. */
  function LimitClauseText(l: LimitPart): string {
    if !LimitEmpty(l) then " LIMIT " + LimitText(l) else ""
  }

  /** Everything of the statement before the LIMIT clause. */
  function Head(sql: Parts): string {
    SelectText(sql) + WhereText(sql) + OrderText(sql)
  }

  /** `buildQuery`. */
  function BuildQuery(sql: Parts): string {
    Head(sql) + LimitClauseText(sql.limit)
  }

  /** `parseLimitAndOffset`. */
  function ParseLimitAndOffset(limit: Option<int>, offset: Option<int>, sql: Parts): Parts {
    if limit.Some? && offset.Some? then sql.(limit := Window(offset.value, limit.value))
    else if limit.Some? then sql.(limit := Rows(limit.value))
    else sql
  }

  /**
   * The LIMIT clause of the statement: "offset, limit" when both are given,
   * "limit" when only a non-zero limit is given, and none otherwise.
   */
  lemma LimitClause(limit: Option<int>, offset: Option<int>, sql: Parts)
    requires sql.limit == NoLimit
    ensures var q := BuildQuery(ParseLimitAndOffset(limit, offset, sql));
            && (limit.Some? && offset.Some? ==>
                  q == Head(sql) + (" LIMIT " + (IntToString(offset.value) + ", " + IntToString(limit.value))))
            && (limit.Some? && offset.None? && limit.value != 0 ==> q == Head(sql) + (" LIMIT " + IntToString(limit.value)))
            && (limit.None? || (offset.None? && limit.value == 0) ==> q == Head(sql))
  {
    var sql' := ParseLimitAndOffset(limit, offset, sql);
    HeadIgnoresLimit(sql', sql);
    LimitTail(limit, offset, sql);
    assert BuildQuery(sql') == Head(sql) + LimitClauseText(sql'.limit);
  }

  /** The LIMIT clause text alone, by case. */
  lemma LimitTail(limit: Option<int>, offset: Option<int>, sql: Parts)
    ensures var t := LimitClauseText(ParseLimitAndOffset(limit, offset, sql).limit);
            && (limit.Some? && offset.Some? ==>
                  t == " LIMIT " + (IntToString(offset.value) + ", " + IntToString(limit.value)))
            && (limit.Some? && offset.None? && limit.value != 0 ==> t == " LIMIT " + IntToString(limit.value))
            && (limit.None? && sql.limit == NoLimit ==> t == "")
            && (offset.None? && limit == Some(0) ==> t == "")
  {
  }

  lemma HeadIgnoresLimit(a: Parts, b: Parts)
    requires a.(limit := NoLimit) == b.(limit := NoLimit)
    ensures Head(a) == Head(b)
  {
    assert a.fields == b.fields && a.tables == b.tables && a.unions == b.unions;
  }

  /** No string of the sequence holds a placeholder mark. */
  predicate MarkFree(ss: seq<string>) {
    forall i :: 0 <= i < |ss| ==> '?' !in ss[i]
  }

  lemma {:induction false} JoinMarks(sep: string, ss: seq<string>)
    requires '?' !in sep
    ensures MarkFree(ss) ==> '?' !in Join(sep, ss)
  {
    if |ss| > 1 {
      JoinMarks(sep, ss[1..]);
      assert MarkFree(ss) ==> MarkFree(ss[1..]);
    }
  }

  lemma {:induction false} ConcatMarks(ss: seq<string>)
    ensures Count(Concat(ss), '?') == CountAll(ss)
  {
    if ss != [] {
      ConcatMarks(ss[1..]);
      CountConcat(ss[0], Concat(ss[1..]), '?');
    }
  }

  /** The number of marks in all strings of the sequence. */
  function CountAll(ss: seq<string>): nat {
    if ss == [] then 0 else Count(ss[0], '?') + CountAll(ss[1..])
  }

  /** Neither key nor value of any entry holds a mark. */
  predicate EntriesMarkFree(m: Entries) {
    forall e :: e in m ==> '?' !in e.0 && '?' !in e.1
  }

  lemma EntriesValues(m: Entries)
    requires EntriesMarkFree(m)
    ensures MarkFree(Values(m)) && MarkFree(Keys(m))
  {
    forall i | 0 <= i < |m| ensures '?' !in Values(m)[i] && '?' !in Keys(m)[i] {
      assert m[i] in m;
    }
  }

  /** Outside the constraint fragments, no part of the accumulator holds a mark. */
  predicate MarksOnlyInWhere(sql: Parts) {
    && EntriesMarkFree(sql.fields) && EntriesMarkFree(sql.tables) && EntriesMarkFree(sql.unions)
    && MarkFree(sql.additionalWhereClause) && MarkFree(sql.orderings)
  }

  lemma WhereMarks(sql: Parts)
    requires MarkFree(sql.additionalWhereClause)
    ensures Count(WhereText(sql), '?') == CountAll(sql.where)
  {
    ConcatMarks(sql.where);
    JoinMarks(" AND ", sql.additionalWhereClause);
    var cw := Concat(sql.where);
    var a := if sql.additionalWhereClause != [] then " AND " + Join(" AND ", sql.additionalWhereClause) else "";
    assert '?' !in a;
    if sql.where != [] {
      CountConcat(" WHERE " + cw, a, '?');
      CountConcat(" WHERE ", cw, '?');
    } else {
      assert CountAll(sql.where) == 0;
    }
  }

  lemma SelectMarks(sql: Parts)
    requires MarksOnlyInWhere(sql)
    ensures '?' !in SelectText(sql)
  {
    EntriesValues(sql.fields);
    EntriesValues(sql.tables);
    EntriesValues(sql.unions);
    JoinMarks(",", Values(sql.fields));
    JoinMarks(" ", Values(sql.tables));
    JoinMarks(" ", Values(sql.unions));
  }

  /**
   * The marks of the statement `buildQuery` builds are exactly those of the
   * constraint fragments, as long as nothing else holds one.
   */
  lemma BuildQueryMarks(sql: Parts)
    requires MarksOnlyInWhere(sql)
    ensures Count(BuildQuery(sql), '?') == CountAll(sql.where)
  {
    SelectMarks(sql);
    JoinMarks(", ", sql.orderings);
    WhereMarks(sql);
    var s, w, o, l := SelectText(sql), WhereText(sql), OrderText(sql), LimitClauseText(sql.limit);
    assert '?' !in s && '?' !in o && '?' !in l;
    CountConcat(s + w + o, l, '?');
    CountConcat(s + w, o, '?');
    CountConcat(s, w, '?');
  }

  /** `parseIdentifier`: "field=?" for every key, joined with ' AND '. */
  method ParseIdentifier(fieldNames: seq<string>) returns (r: string)
    ensures r == Join(" AND ", IdentifierTerms(fieldNames))
  {
    var suffixed: seq<string> := [];
    for i := 0 to |fieldNames|
      invariant suffixed == IdentifierTerms(fieldNames[..i])
    {
      assert fieldNames[..i + 1] == fieldNames[..i] + [fieldNames[i]];
      IdentifierTermsAppend(fieldNames[..i], fieldNames[i]);
      suffixed := suffixed + [fieldNames[i] + "=?"];
    }
    assert fieldNames[..|fieldNames|] == fieldNames;
    r := Join(" AND ", suffixed);
  }

  function IdentifierTerms(fieldNames: seq<string>): (ts: seq<string>)
    ensures |ts| == |fieldNames|
  {
    if fieldNames == [] then [] else [fieldNames[0] + "=?"] + IdentifierTerms(fieldNames[1..])
  }

  lemma {:induction false} IdentifierTermsAppend(fs: seq<string>, f: string)
    ensures IdentifierTerms(fs + [f]) == IdentifierTerms(fs) + [f + "=?"]
  {
    if fs != [] {
      assert (fs + [f])[1..] == fs[1..] + [f];
      IdentifierTermsAppend(fs[1..], f);
    }
  }

  /** The identifier clause holds one placeholder per key (for keys without marks of their own). */
  lemma {:induction false} IdentifierMarks(fieldNames: seq<string>)
    requires MarkFree(fieldNames)
    ensures Count(Join(" AND ", IdentifierTerms(fieldNames)), '?') == |fieldNames|
  {
    if |fieldNames| == 1 {
      CountConcat(fieldNames[0], "=?", '?');
    } else if |fieldNames| > 1 {
      IdentifierMarks(fieldNames[1..]);
      var rest := Join(" AND ", IdentifierTerms(fieldNames[1..]));
      CountConcat(fieldNames[0] + "=?" + " AND ", rest, '?');
      CountConcat(fieldNames[0] + "=?", " AND ", '?');
      CountConcat(fieldNames[0], "=?", '?');
    }
  }
}
