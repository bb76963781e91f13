/**
 * The query compiler of the database backend: source, constraint tree,
 * comparisons, dynamic operands, orderings and the per-table scope clauses,
 * each as a specification function and as the method that walks the query
 * the way `parseQuery` does, proved to compute the same accumulator.
 */
module Compiler {
  import opened Outcomes
  import opened Strings
  import opened OrderedMaps
  import opened Schema
  import opened QueryModel
  import opened Clauses
  import opened Joins
  import opened Scope

  /** `$sql` and `$parameters`, the two arrays the compiler fills by reference. */
  datatype Acc = Acc(sql: Parts, parameters: seq<Param>)

  predicate IsPrefix<T(==)>(a: seq<T>, b: seq<T>) {
    |a| <= |b| && b[..|a|] == a
  }

  /**
   * What any step of the constraint walk may do to the accumulator: extend the
   * WHERE fragments and the parameters at their ends, add or replace joins,
   * set the DISTINCT flag, and nothing else.
   */
  predicate Extends(a: Acc, a': Acc) {
    && a'.sql == a.sql.(distinct := a'.sql.distinct, unions := a'.sql.unions, where := a'.sql.where)
    && IsPrefix(a.sql.where, a'.sql.where)
    && IsPrefix(a.parameters, a'.parameters)
    && JoinsGrow(a.sql, a'.sql)
  }

  /** Joins are only ever added or replaced, and the DISTINCT flag is never cleared. */
  predicate JoinsGrow(p: Parts, p': Parts) {
    && (p.distinct ==> p'.distinct)
    && (forall k :: k in Keys(p.unions) ==> k in Keys(p'.unions))
    && (UniqueKeys(p.unions) ==> UniqueKeys(p'.unions))
  }

  lemma ExtendsTrans(a: Acc, b: Acc, c: Acc)
    requires Extends(a, b) && Extends(b, c)
    ensures Extends(a, c)
  {
    assert c.sql.where[..|a.sql.where|] == b.sql.where[..|a.sql.where|];
    assert c.parameters[..|a.parameters|] == b.parameters[..|a.parameters|];
  }

  // ---------------------------------------------------------------- values

  /** `getPlainValue` for the values modelled here. */
  function PlainValue(v: Value): (r: Result<Plain, Error>)
    ensures r.Err? <==> v.Array?
    ensures r.Err? ==> r.error == NotAPlainValue
    ensures v.Null? ==> r == Ok(PNull)
    ensures v.Bool? ==> r == Ok(PInt(if v.b then 1 else 0))
    ensures v.Int? ==> r == Ok(PInt(v.i))
    ensures v.Str? ==> r == Ok(PStr(v.s))
  {
    match v
    case Array(_) => Err(NotAPlainValue)
    case Null => Ok(PNull)
    case Bool(b) => Ok(PInt(if b then 1 else 0))
    case Int(i) => Ok(PInt(i))
    case Str(s) => Ok(PStr(s))
  }

  /** What `foreach` visits: the elements of an array, nothing for any other value. */
  function IterableOf(v: Value): seq<Value> {
    if v.Array? then v.items else []
  }

  /** The items of an IN comparison: the plain values of the operand's elements, NULLs dropped. */
  function InItems(vs: seq<Value>): (r: Result<seq<Plain>, Error>)
    ensures r.Ok? <==> forall i :: 0 <= i < |vs| ==> !vs[i].Array?
    ensures r.Ok? ==> forall p :: p in r.value ==> p != PNull
    ensures r.Ok? ==> |r.value| <= |vs|
    ensures r.Ok? && (forall i :: 0 <= i < |vs| ==> vs[i] != Null) ==> |r.value| == |vs|
  {
    if vs == [] then Ok([])
    else
      match PlainValue(vs[0])
      case Err(e) => Err(e)
      case Ok(v) =>
        match InItems(vs[1..])
        case Err(e) =>
          assert forall i :: 0 <= i < |vs[1..]| ==> vs[1..][i] == vs[i + 1];
          Err(e)
        case Ok(rest) =>
          assert forall i :: 1 <= i < |vs| ==> vs[i] == vs[1..][i - 1];
          Ok((if v.PNull? then [] else [v]) + rest)
  }

  /**
   * The items grow as the `foreach` visits the elements: one more element adds
   * its plain value at the end unless it is NULL, and an array stops the loop.
   */
  lemma {:induction false} InItemsAppend(vs: seq<Value>, v: Value)
    ensures InItems(vs + [v])
            == match InItems(vs)
               case Err(e) => Err(e)
               case Ok(items) =>
                 match PlainValue(v)
                 case Err(e) => Err(e)
                 case Ok(p) => Ok(items + (if p.PNull? then [] else [p]))
    decreases |vs|
  {
    if vs == [] {
      assert [] + [v] == [v];
      assert [v][1..] == [];
      if PlainValue(v).Ok? {
        var p := PlainValue(v).value;
        var k := if p.PNull? then [] else [p];
        assert k + [] == [] + k;
      }
    } else {
      assert (vs + [v])[0] == vs[0];
      assert (vs + [v])[1..] == vs[1..] + [v];
      InItemsAppend(vs[1..], v);
      if PlainValue(vs[0]).Ok? && InItems(vs[1..]).Ok? && PlainValue(v).Ok? {
        var p0, p := PlainValue(vs[0]).value, PlainValue(v).value;
        var k0 := if p0.PNull? then [] else [p0];
        var k := if p.PNull? then [] else [p];
        assert k0 + (InItems(vs[1..]).value + k) == (k0 + InItems(vs[1..]).value) + k;
      }
    }
  }

  /** `items` followed by the items of `rest`, or the first exception among `rest`. */
  function ItemsAfter(items: seq<Plain>, rest: seq<Value>): Result<seq<Plain>, Error> {
    match InItems(rest)
    case Err(e) => Err(e)
    case Ok(t) => Ok(items + t)
  }

  lemma ItemsAfterStep(items: seq<Plain>, vs: seq<Value>)
    requires vs != []
    ensures PlainValue(vs[0]).Err? ==> ItemsAfter(items, vs) == Err(NotAPlainValue)
    ensures PlainValue(vs[0]).Ok? ==>
              var v := PlainValue(vs[0]).value;
              ItemsAfter(items, vs) == ItemsAfter(items + (if v.PNull? then [] else [v]), vs[1..])
  {
    if PlainValue(vs[0]).Ok? && InItems(vs[1..]).Ok? {
      var v := PlainValue(vs[0]).value;
      var kept := if v.PNull? then [] else [v];
      assert items + (kept + InItems(vs[1..]).value) == (items + kept) + InItems(vs[1..]).value;
    }
  }

  /** The IN loop of `parseComparison`, with its `$hasValue` flag. */
  method CollectItems(operand2: Value) returns (r: Result<seq<Plain>, Error>, hasValue: bool)
    ensures r == InItems(IterableOf(operand2))
    ensures r.Ok? ==> (hasValue <==> r.value != [])
  {
    var vs := IterableOf(operand2);
    var items: seq<Plain> := [];
    hasValue := false;
    var i := 0;
    assert vs[0..] == vs;
    assert ItemsAfter([], vs) == InItems(vs) by {
      if InItems(vs).Ok? {
        assert [] + InItems(vs).value == InItems(vs).value;
      }
    }
    while i < |vs|
      invariant 0 <= i <= |vs|
      invariant ItemsAfter(items, vs[i..]) == InItems(vs)
      invariant hasValue <==> items != []
    {
      ItemsAfterStep(items, vs[i..]);
      assert vs[i..][0] == vs[i];
      assert vs[i..][1..] == vs[i + 1..];
      var value := PlainValue(vs[i]);
      if value.Err? {
        return Err(value.error), hasValue;
      }
      if value.value != PNull {
        items := items + [value.value];
        hasValue := true;
      } else {
        assert items + [] == items;
      }
      i := i + 1;
    }
    assert vs[i..] == [];
    assert items + [] == items;
    r := Ok(items);
  }

  // ------------------------------------------------------------- operators

  /**
   * `resolveOperator`. Its `switch` compares loosely: with the PHP 5 and 7
   * rules a non-numeric string compared with an integer becomes 0, so the
   * code 0 matches the first case, `operatorEqualToNull`, and becomes "IS".
   */
  function ResolveOperator(operator: Operator): (r: Result<string, Error>)
    ensures r.Err? <==> operator.Contains? || (operator.OtherOperator? && operator.code != 0)
    ensures r.Err? ==> r.error == UnsupportedOperator
    ensures r.Ok? ==> Bare(r.value) && r.value != ""
    ensures operator == EqualToNull || operator == OtherOperator(0) ==> r == Ok("IS")
    ensures operator == NotEqualToNull ==> r == Ok("IS NOT")
    ensures operator == In ==> r == Ok("IN")
    ensures operator == EqualTo ==> r == Ok("=")
    ensures operator == NotEqualTo ==> r == Ok("!=")
    ensures operator == LessThan ==> r == Ok("<")
    ensures operator == LessThanOrEqualTo ==> r == Ok("<=")
    ensures operator == GreaterThan ==> r == Ok(">")
    ensures operator == GreaterThanOrEqualTo ==> r == Ok(">=")
    ensures operator == Like ==> r == Ok("LIKE")
  {
    match operator
    case EqualToNull => Ok("IS")
    case NotEqualToNull => Ok("IS NOT")
    case In => Ok("IN")
    case EqualTo => Ok("=")
    case NotEqualTo => Ok("!=")
    case LessThan => Ok("<")
    case LessThanOrEqualTo => Ok("<=")
    case GreaterThan => Ok(">")
    case GreaterThanOrEqualTo => Ok(">=")
    case Like => Ok("LIKE")
    case OtherOperator(code) => if code == 0 then Ok("IS") else Err(UnsupportedOperator)
    case Contains => Err(UnsupportedOperator)
  }

  /** Different supported operators become different SQL operators, except that code 0 reads as `operatorEqualToNull`. */
  lemma ResolveOperatorInjective(a: Operator, b: Operator)
    requires ResolveOperator(a).Ok? && ResolveOperator(b).Ok?
    requires ResolveOperator(a) == ResolveOperator(b)
    ensures a == b || ({a, b} == {EqualToNull, OtherOperator(0)})
  {
  }

  // ------------------------------------------------------ dynamic operands

  /** The column reference, qualified unless the table name is `empty()`. */
  function Qualified(tableName: string, columnName: string): string {
    (if !PhpEmpty(tableName) then tableName + "." else "") + columnName
  }

  /** The fragment of one property comparison, with its single placeholder. */
  function OperandFragment(tableName: string, columnName: string, op: string, valueFunction: Option<string>): (f: string)
    ensures |f| >= 3 + |op| && f[|f| - 3 - |op|..] == " " + op + " ?"
  {
    var column := if valueFunction.None? then Qualified(tableName, columnName)
                  else valueFunction.value + "(" + Qualified(tableName, columnName) + ")";
    var f := column + (" " + op + " ?");
    assert f[|column|..] == " " + op + " ?";
    f
  }

  /**
   * The table and column a property name stands for: for a selector source
   * the relation path is followed from the query's table, for a join source
   * the given table is used and the name is taken as it is.
   */
  function PropertyTarget(b: Backend, joinTable: string, propertyName: string, sql: Parts): (r: Result<JoinStep, Error>)
    ensures b.query.source.JoinSource? ==> r == Ok(JoinStep(joinTable, propertyName, sql))
    ensures b.query.source.SelectorSource? ==> r == ResolvePath(b.catalog, b.query.queryType, propertyName, sql)
  {
    if b.query.source.SelectorSource? then ResolvePath(b.catalog, b.query.queryType, propertyName, sql)
    else Ok(JoinStep(joinTable, propertyName, sql))
  }

  /** `parseDynamicOperand` for a property value. */
  function PropertySql(b: Backend, propertyName: string, operator: Operator, valueFunction: Option<string>, acc: Acc): (r: Result<Acc, Error>)
    ensures r.Ok? ==> Extends(acc, r.value) && r.value.parameters == acc.parameters
    ensures r.Ok? ==> |r.value.sql.where| == |acc.sql.where| + 1
    ensures r.Ok? ==> ResolveOperator(operator).Ok? && var op := ResolveOperator(operator).value;
                      var f := r.value.sql.where[|acc.sql.where|];
                      |f| >= 3 + |op| && f[|f| - 3 - |op|..] == " " + op + " ?"
  {
    var joinTable := if b.query.source.JoinSource? then b.query.source.joinCondition.selector1Name else "";
    var target :- PropertyTarget(b, joinTable, propertyName, acc.sql);
    var op :- ResolveOperator(operator);
    var sql := target.sql.(where := target.sql.where + [OperandFragment(target.tableName, target.propertyPath, op, valueFunction)]);
    assert sql.where[..|acc.sql.where|] == acc.sql.where;
    Ok(Acc(sql, acc.parameters))
  }

  /** `parseDynamicOperand`: case folding passes its SQL function to the operand it wraps. */
  function OperandSql(b: Backend, operand: DynamicOperand, operator: Operator, valueFunction: Option<string>, acc: Acc): (r: Result<Acc, Error>)
    ensures r.Ok? ==> Extends(acc, r.value) && r.value.parameters == acc.parameters
    ensures r.Ok? ==> |r.value.sql.where| == |acc.sql.where| + 1
    ensures r.Ok? ==> ResolveOperator(operator).Ok? && var op := ResolveOperator(operator).value;
                      var f := r.value.sql.where[|acc.sql.where|];
                      |f| >= 3 + |op| && f[|f| - 3 - |op|..] == " " + op + " ?"
    decreases operand
  {
    match operand
    case LowerCase(o) => OperandSql(b, o, operator, Some("LOWER"), acc)
    case UpperCase(o) => OperandSql(b, o, operator, Some("UPPER"), acc)
    case PropertyValue(p) => PropertySql(b, p, operator, valueFunction, acc)
  }

  /** The property a dynamic operand finally reads. */
  function PropertyOf(operand: DynamicOperand): string {
    match operand
    case PropertyValue(p) => p
    case LowerCase(o) => PropertyOf(o)
    case UpperCase(o) => PropertyOf(o)
  }

  /** The SQL function applied to it: that of the innermost case folding, if any. */
  function InnermostFunction(operand: DynamicOperand, valueFunction: Option<string>): Option<string> {
    match operand
    case PropertyValue(_) => valueFunction
    case LowerCase(o) => InnermostFunction(o, Some("LOWER"))
    case UpperCase(o) => InnermostFunction(o, Some("UPPER"))
  }

  /** Nested case foldings do not compose: only the innermost one reaches the SQL. */
  lemma {:induction false} InnermostWrapperWins(b: Backend, operand: DynamicOperand, operator: Operator, valueFunction: Option<string>, acc: Acc)
    ensures OperandSql(b, operand, operator, valueFunction, acc)
            == PropertySql(b, PropertyOf(operand), operator, InnermostFunction(operand, valueFunction), acc)
  {
    match operand
    case PropertyValue(_) =>
    case LowerCase(o) => InnermostWrapperWins(b, o, operator, Some("LOWER"), acc);
    case UpperCase(o) => InnermostWrapperWins(b, o, operator, Some("UPPER"), acc);
  }

  /** The recursive walk of `parseDynamicOperand`, running the join loop for a selector source. */
  method ParseDynamicOperand(b: Backend, operand: DynamicOperand, operator: Operator, valueFunction: Option<string>, acc: Acc)
    returns (r: Result<Acc, Error>)
    ensures r == OperandSql(b, operand, operator, valueFunction, acc)
    decreases operand
  {
    match operand {
      case LowerCase(o) =>
        r := ParseDynamicOperand(b, o, operator, Some("LOWER"), acc);
      case UpperCase(o) =>
        r := ParseDynamicOperand(b, o, operator, Some("UPPER"), acc);
      case PropertyValue(propertyName) =>
        var target: Result<JoinStep, Error>;
        if b.query.source.SelectorSource? {
          target := ResolvePropertyPath(b.catalog, b.query.queryType, propertyName, acc.sql);
        } else {
          target := Ok(JoinStep(b.query.source.joinCondition.selector1Name, propertyName, acc.sql));
        }
        if target.Err? {
          return Err(target.error);
        }
        var op := ResolveOperator(operator);
        if op.Err? {
          return Err(op.error);
        }
        var t := target.value;
        var fragment := OperandFragment(t.tableName, t.propertyPath, op.value, valueFunction);
        r := Ok(Acc(t.sql.(where := t.sql.where + [fragment]), acc.parameters));
    }
  }

  // ----------------------------------------------------------- comparisons

  /** EQUAL_TO and NOT_EQUAL_TO against NULL become IS / IS NOT. */
  function NullAware(operator: Operator, operand2: Value): Operator {
    if operand2.Null? && operator == EqualTo then EqualToNull
    else if operand2.Null? && operator == NotEqualTo then NotEqualToNull
    else operator
  }

  function AddWhere(acc: Acc, fragment: string): Acc {
    acc.(sql := acc.sql.(where := acc.sql.where + [fragment]))
  }

  function AddParameter(acc: Acc, p: Param): Acc {
    acc.(parameters := acc.parameters + [p])
  }

  /** `parseComparison`. */
  function ComparisonSql(b: Backend, operand1: DynamicOperand, operator: Operator, operand2: Value, acc: Acc): (r: Result<Acc, Error>)
    ensures r.Ok? ==> Extends(acc, r.value)
    ensures r.Ok? ==> |r.value.sql.where| == |acc.sql.where| + 1
    ensures r.Ok? ==> |r.value.parameters| <= |acc.parameters| + 1
    ensures r.Ok? && operator != In && operator != Contains ==>
              PlainValue(operand2).Ok? && r.value.parameters == acc.parameters + [Scalar(PlainValue(operand2).value)]
  {
    if operator == In then InComparisonSql(b, operand1, operand2, acc)
    else if operator == Contains then ContainsComparisonSql(b, operand1, operand2, acc)
    else ScalarComparisonSql(b, operand1, operator, operand2, acc)
  }

  /** IN: "1<>1" when no item remains, otherwise "... IN ?" bound to the item list. */
  function InComparisonSql(b: Backend, operand1: DynamicOperand, operand2: Value, acc: Acc): (r: Result<Acc, Error>)
    ensures r.Ok? ==> Extends(acc, r.value)
    ensures r.Ok? ==> |r.value.sql.where| == |acc.sql.where| + 1
    ensures r.Ok? ==> |r.value.parameters| <= |acc.parameters| + 1
  {
    var items :- InItems(IterableOf(operand2));
    if items == [] then Ok(AddWhere(acc, "1<>1"))
    else
      var a :- OperandSql(b, operand1, In, None, acc);
      Ok(AddParameter(a, List(items)))
  }

  /** CONTAINS: "1<>1" against NULL; otherwise the join loop runs and the relation is rejected. */
  function ContainsComparisonSql(b: Backend, operand1: DynamicOperand, operand2: Value, acc: Acc): (r: Result<Acc, Error>)
    ensures r.Ok? ==> r == Ok(AddWhere(acc, "1<>1"))
  {
    if operand2.Null? then Ok(AddWhere(acc, "1<>1"))
    else if !operand1.PropertyValue? then Err(NotAPropertyOperand)
    else
      var target :- ResolvePath(b.catalog, b.query.queryType, operand1.propertyName, acc.sql);
      Err(UnsupportedRelationMatching(target.propertyPath))
  }

  /** Every other operator: the operand's fragment, then the plain value as parameter. */
  function ScalarComparisonSql(b: Backend, operand1: DynamicOperand, operator: Operator, operand2: Value, acc: Acc): (r: Result<Acc, Error>)
    ensures r.Ok? ==> Extends(acc, r.value)
    ensures r.Ok? ==> |r.value.sql.where| == |acc.sql.where| + 1
    ensures r.Ok? ==> |r.value.parameters| == |acc.parameters| + 1
    ensures r.Ok? <==> OperandSql(b, operand1, NullAware(operator, operand2), None, acc).Ok? && PlainValue(operand2).Ok?
    ensures r.Ok? ==> r.value.sql == OperandSql(b, operand1, NullAware(operator, operand2), None, acc).value.sql
    ensures r.Ok? ==> r.value.parameters == acc.parameters + [Scalar(PlainValue(operand2).value)]
  {
    var a :- OperandSql(b, operand1, NullAware(operator, operand2), None, acc);
    var v :- PlainValue(operand2);
    Ok(AddParameter(a, Scalar(v)))
  }

  /** CONTAINS against anything but NULL never compiles: the relation it needs is never found. */
  lemma ContainsAlwaysFails(b: Backend, operand1: DynamicOperand, operand2: Value, acc: Acc)
    requires !operand2.Null?
    ensures ComparisonSql(b, operand1, Contains, operand2, acc).Err?
  {
  }

  /** An IN comparison whose operand yields no item matches nothing and binds nothing. */
  lemma EmptyInMatchesNothing(b: Backend, operand1: DynamicOperand, operand2: Value, acc: Acc)
    requires forall i :: 0 <= i < |IterableOf(operand2)| ==> IterableOf(operand2)[i] == Null
    ensures ComparisonSql(b, operand1, In, operand2, acc) == Ok(AddWhere(acc, "1<>1"))
  {
    var vs := IterableOf(operand2);
    EmptyItemsAllNull(vs);
  }

  lemma {:induction false} EmptyItemsAllNull(vs: seq<Value>)
    requires forall i :: 0 <= i < |vs| ==> vs[i] == Null
    ensures InItems(vs) == Ok([])
  {
    if vs != [] {
      assert forall i :: 0 <= i < |vs[1..]| ==> vs[1..][i] == vs[i + 1];
      EmptyItemsAllNull(vs[1..]);
    }
  }

  /** A non-empty IN binds the whole item list as one parameter behind " IN ?". */
  lemma InBindsItemList(b: Backend, operand1: DynamicOperand, operand2: Value, acc: Acc)
    requires InItems(IterableOf(operand2)).Ok? && InItems(IterableOf(operand2)).value != []
    requires OperandSql(b, operand1, In, None, acc).Ok?
    ensures var r := ComparisonSql(b, operand1, In, operand2, acc);
            && r.Ok?
            && r.value.parameters == acc.parameters + [List(InItems(IterableOf(operand2)).value)]
            && var f := r.value.sql.where[|acc.sql.where|];
               |f| >= 5 && f[|f| - 5..] == " " + "IN" + " ?"
  {
    var a := OperandSql(b, operand1, In, None, acc).value;
    InIsOperandThenList(b, operand1, operand2, acc);
    OperandTail(b, operand1, In, acc, "IN");
  }

  lemma InIsOperandThenList(b: Backend, operand1: DynamicOperand, operand2: Value, acc: Acc)
    requires InItems(IterableOf(operand2)).Ok? && InItems(IterableOf(operand2)).value != []
    requires OperandSql(b, operand1, In, None, acc).Ok?
    ensures ComparisonSql(b, operand1, In, operand2, acc)
            == Ok(AddParameter(OperandSql(b, operand1, In, None, acc).value, List(InItems(IterableOf(operand2)).value)))
  {
  }

  /** The fragment an operand adds ends in " ", the operator's word and " ?". */
  lemma OperandTail(b: Backend, operand1: DynamicOperand, op: Operator, acc: Acc, word: string)
    requires OperandSql(b, operand1, op, None, acc).Ok? && ResolveOperator(op) == Ok(word)
    ensures var f := OperandSql(b, operand1, op, None, acc).value.sql.where[|acc.sql.where|];
            |f| >= 3 + |word| && f[|f| - (3 + |word|)..] == " " + word + " ?"
  {
  }

  /** Equality with NULL becomes "IS ?" bound to NULL, inequality "IS NOT ?". */
  lemma NullEqualityBecomesIs(b: Backend, operand1: DynamicOperand, operator: Operator, acc: Acc)
    requires operator == EqualTo || operator == NotEqualTo
    requires OperandSql(b, operand1, NullAware(operator, Null), None, acc).Ok?
    ensures ResolveOperator(NullAware(operator, Null)) == Ok(if operator == EqualTo then "IS" else "IS NOT")
    ensures var r := ComparisonSql(b, operand1, operator, Null, acc);
            var word := ResolveOperator(NullAware(operator, Null)).value;
            && r.Ok?
            && r.value.parameters == acc.parameters + [Scalar(PNull)]
            && var f := r.value.sql.where[|acc.sql.where|];
               |f| >= 3 + |word| && f[|f| - (3 + |word|)..] == " " + word + " ?"
  {
    var op := NullAware(operator, Null);
    assert ResolveOperator(op) == Ok(if operator == EqualTo then "IS" else "IS NOT");
    NullIsOperandThenNull(b, operand1, operator, acc);
    var a := OperandSql(b, operand1, op, None, acc).value;
    assert ComparisonSql(b, operand1, operator, Null, acc).value.sql == a.sql;
    OperandTail(b, operand1, op, acc, ResolveOperator(op).value);
  }

  lemma NullIsOperandThenNull(b: Backend, operand1: DynamicOperand, operator: Operator, acc: Acc)
    requires operator == EqualTo || operator == NotEqualTo
    requires OperandSql(b, operand1, NullAware(operator, Null), None, acc).Ok?
    ensures ComparisonSql(b, operand1, operator, Null, acc)
            == Ok(AddParameter(OperandSql(b, operand1, NullAware(operator, Null), None, acc).value, Scalar(PNull)))
  {
    assert PlainValue(Null) == Ok(PNull);
  }

  /** `parseComparison`, with the IN loop and the CONTAINS join loop. */
  method ParseComparison(b: Backend, operand1: DynamicOperand, operator: Operator, operand2: Value, acc: Acc)
    returns (r: Result<Acc, Error>)
    ensures r == ComparisonSql(b, operand1, operator, operand2, acc)
  {
    if operator == In {
      r := ParseInComparison(b, operand1, operand2, acc);
    } else if operator == Contains {
      r := ParseContainsComparison(b, operand1, operand2, acc);
    } else {
      r := ParseScalarComparison(b, operand1, operator, operand2, acc);
    }
  }

  /** The IN branch of `parseComparison`: the item loop, then the operand. */
  method ParseInComparison(b: Backend, operand1: DynamicOperand, operand2: Value, acc: Acc)
    returns (r: Result<Acc, Error>)
    ensures r == InComparisonSql(b, operand1, operand2, acc)
  {
    var items, hasValue := CollectItems(operand2);
    if items.Err? {
      return Err(items.error);
    }
    if !hasValue {
      r := Ok(AddWhere(acc, "1<>1"));
    } else {
      var a := ParseDynamicOperand(b, operand1, In, None, acc);
      if a.Err? {
        return a;
      }
      r := Ok(AddParameter(a.value, List(items.value)));
    }
  }

  /** The CONTAINS branch of `parseComparison`: "1<>1" against NULL, otherwise the join loop and the exception. */
  method ParseContainsComparison(b: Backend, operand1: DynamicOperand, operand2: Value, acc: Acc)
    returns (r: Result<Acc, Error>)
    ensures r == ContainsComparisonSql(b, operand1, operand2, acc)
  {
    if operand2.Null? {
      r := Ok(AddWhere(acc, "1<>1"));
    } else if !operand1.PropertyValue? {
      r := Err(NotAPropertyOperand);
    } else {
      var target := ResolvePropertyPath(b.catalog, b.query.queryType, operand1.propertyName, acc.sql);
      if target.Err? {
        return Err(target.error);
      }
      r := Err(UnsupportedRelationMatching(target.value.propertyPath));
    }
  }

  /** Every other operator: the operand, then the plain value as parameter. */
  method ParseScalarComparison(b: Backend, operand1: DynamicOperand, operator: Operator, operand2: Value, acc: Acc)
    returns (r: Result<Acc, Error>)
    ensures r == ScalarComparisonSql(b, operand1, operator, operand2, acc)
  {
    var a := ParseDynamicOperand(b, operand1, NullAware(operator, operand2), None, acc);
    if a.Err? {
      return a;
    }
    var v := PlainValue(operand2);
    if v.Err? {
      return Err(v.error);
    }
    r := Ok(AddParameter(a.value, Scalar(v.value)));
  }

  // ----------------------------------------------------------- constraints

  /** `parseConstraint`: AND and OR are bracketed, NOT is "NOT (...)", a missing constraint adds nothing. */
  function ConstraintSql(b: Backend, c: Constraint, acc: Acc): (r: Result<Acc, Error>)
    ensures r.Ok? ==> Extends(acc, r.value)
    ensures c.NullConstraint? ==> r == Ok(acc)
    decreases c, 1
  {
    match c
    case NullConstraint => Ok(acc)
    case And(_, _) => Connective(b, c, " AND ", acc)
    case Or(_, _) => Connective(b, c, " OR ", acc)
    case Not(c1) =>
      var a1 := AddWhere(acc, "NOT (");
      var a2 :- ConstraintSql(b, c1, a1);
      ExtendsTrans(acc, a1, a2);
      var a3 := AddWhere(a2, ")");
      ExtendsTrans(acc, a2, a3);
      Ok(a3)
    case Comparison(o1, op, o2) => ComparisonSql(b, o1, op, o2, acc)
  }

  /** "(" first operand, connective, second operand ")". */
  function Connective(b: Backend, c: Constraint, word: string, acc: Acc): (r: Result<Acc, Error>)
    requires c.And? || c.Or?
    ensures r.Ok? ==> Extends(acc, r.value)
    decreases c, 0
  {
    var a1 := AddWhere(acc, "(");
    var a2 :- ConstraintSql(b, c.constraint1, a1);
    ExtendsTrans(acc, a1, a2);
    var a3 := AddWhere(a2, word);
    ExtendsTrans(acc, a2, a3);
    var a4 :- ConstraintSql(b, c.constraint2, a3);
    ExtendsTrans(acc, a3, a4);
    var a5 := AddWhere(a4, ")");
    ExtendsTrans(acc, a4, a5);
    Ok(a5)
  }

  /** The recursive walk of `parseConstraint`. */
  method ParseConstraint(b: Backend, c: Constraint, acc: Acc) returns (r: Result<Acc, Error>)
    ensures r == ConstraintSql(b, c, acc)
    decreases c, 1
  {
    match c {
      case NullConstraint =>
        r := Ok(acc);
      case And(_, _) =>
        r := ParseConnective(b, c, " AND ", acc);
      case Or(_, _) =>
        r := ParseConnective(b, c, " OR ", acc);
      case Not(c1) =>
        var a := ParseConstraint(b, c1, AddWhere(acc, "NOT ("));
        if a.Err? {
          return a;
        }
        r := Ok(AddWhere(a.value, ")"));
      case Comparison(o1, op, o2) =>
        r := ParseComparison(b, o1, op, o2, acc);
    }
  }

  method ParseConnective(b: Backend, c: Constraint, word: string, acc: Acc) returns (r: Result<Acc, Error>)
    requires c.And? || c.Or?
    ensures r == Connective(b, c, word, acc)
    decreases c, 0
  {
    var a := ParseConstraint(b, c.constraint1, AddWhere(acc, "("));
    if a.Err? {
      return a;
    }
    a := ParseConstraint(b, c.constraint2, AddWhere(a.value, word));
    if a.Err? {
      return a;
    }
    r := Ok(AddWhere(a.value, ")"));
  }

  // ---------------------------------------------------------------- source

  /** `parseSource` and `parseJoin`. */
  function SourceSql(b: Backend, source: Source, sql: Parts): (r: Parts)
    ensures r == sql.(distinct := r.distinct, tables := r.tables, unions := r.unions, fields := r.fields)
    ensures UniqueKeys(sql.tables) ==> UniqueKeys(r.tables)
    ensures UniqueKeys(sql.unions) ==> UniqueKeys(r.unions)
    ensures source.SelectorSource? ==>
              var t := source.selector.nodeTypeName;
              && Get(r.tables, t) == Some(t)
              && Get(r.fields, t) == Some(if PhpEmpty(b.query.distinct) then t + ".*" else t + "." + b.query.distinct)
              && r.distinct == (sql.distinct || !PhpEmpty(b.query.distinct))
              && r.unions == sql.unions
    ensures source.JoinSource? ==> Get(r.tables, source.left.selectorName) == Some(source.left.selectorName)
    ensures source.JoinSource? && source.right.SelectorSource? ==>
              var rightName := source.right.selector.selectorName;
              && Get(r.unions, rightName) == Some("LEFT JOIN " + rightName + JoinOn(source.joinCondition))
              && Get(r.fields, source.left.selectorName) == Some(rightName + ".*")
    ensures forall k :: Get(sql.tables, k) == Some(k) ==> Get(r.tables, k) == Some(k)
    decreases source
  {
    match source
    case SelectorSource(selector) =>
      var t := selector.nodeTypeName;
      var fields := Put(sql.fields, t, t + ".*");
      var tables := Put(sql.tables, t, t);
      if !PhpEmpty(b.query.distinct) then
        sql.(fields := Put(fields, t, t + "." + b.query.distinct), tables := tables, distinct := true)
      else sql.(fields := fields, tables := tables)
    case JoinSource(left, right, jc) =>
      var s := JoinLevel(left, right, jc, sql);
      if right.JoinSource? then
        SourceSql(b, right, s)
      else s
  }

  /** What `parseJoin` adds for one join before it descends into a joined right side. */
  function JoinLevel(left: Selector, right: Source, jc: EquiJoinCondition, sql: Parts): (r: Parts)
    ensures r == sql.(tables := r.tables, unions := r.unions, fields := r.fields)
    ensures Get(r.tables, left.selectorName) == Some(left.selectorName)
    ensures forall k :: k != left.selectorName ==> Get(r.tables, k) == Get(sql.tables, k)
    ensures Get(r.unions, RightName(right)) == Some("LEFT JOIN " + RightName(right) + JoinOn(jc))
    ensures forall k :: k != RightName(right) ==> Get(r.unions, k) == Get(sql.unions, k)
    ensures right.SelectorSource? ==> Get(r.fields, left.selectorName) == Some(RightName(right) + ".*")
    ensures right.SelectorSource? ==> forall k :: k != left.selectorName ==> Get(r.fields, k) == Get(sql.fields, k)
    ensures right.JoinSource? ==> r.fields == sql.fields
  {
    var leftName := left.selectorName;
    var rightName := RightName(right);
    var fields := if right.SelectorSource? then Put(sql.fields, leftName, rightName + ".*") else sql.fields;
    var tables := Put(sql.tables, leftName, leftName);
    var unions := Put(sql.unions, rightName, "LEFT JOIN " + rightName);
    var unions' := AppendTo(unions, rightName, JoinOn(jc));
    sql.(fields := fields, tables := tables, unions := unions')
  }

  /** The selector name of the right side of a join. */
  function RightName(right: Source): string {
    if right.JoinSource? then right.left.selectorName else right.selector.selectorName
  }

  function JoinOn(jc: EquiJoinCondition): string {
    " ON " + jc.selector1Name + "." + jc.property1Name + " = " + jc.selector2Name + "." + jc.property2Name
  }

  // ------------------------------------------------------------- orderings

  function DirectionSql(d: Direction): (r: Result<string, Error>)
    ensures r.Err? <==> d.OtherDirection?
    ensures r.Err? ==> r.error == UnsupportedOrder
    ensures d.Ascending? ==> r == Ok("ASC")
    ensures d.Descending? ==> r == Ok("DESC")
  {
    match d
    case Ascending => Ok("ASC")
    case Descending => Ok("DESC")
    case OtherDirection(_) => Err(UnsupportedOrder)
  }

  /** `tableName.column ORDER` when the table name has a length, `column ORDER` otherwise. */
  function OrderingFragment(tableName: string, columnName: string, order: string): string {
    if |tableName| > 0 then tableName + "." + columnName + " " + order else columnName + " " + order
  }

  /** The table an ordering is qualified with when no path is followed: the left selector of a join, else none. */
  function OrderingTable(b: Backend): string {
    if b.query.source.JoinSource? then b.query.source.left.selectorName else ""
  }

  /** One entry of `parseOrderings`: the direction is checked before the path is followed. */
  function OrderingSql(b: Backend, propertyName: string, d: Direction, sql: Parts): (r: Result<Parts, Error>)
    ensures d.OtherDirection? ==> r == Err(UnsupportedOrder)
    ensures r.Ok? ==> r.value == sql.(distinct := r.value.distinct, unions := r.value.unions, orderings := r.value.orderings)
    ensures r.Ok? ==> JoinsGrow(sql, r.value)
    ensures r.Ok? ==> |r.value.orderings| == |sql.orderings| + 1 && r.value.orderings[..|sql.orderings|] == sql.orderings
    ensures r.Ok? <==> DirectionSql(d).Ok? && PropertyTarget(b, OrderingTable(b), propertyName, sql).Ok?
    ensures r.Ok? ==>
              var t := PropertyTarget(b, OrderingTable(b), propertyName, sql).value;
              r.value.orderings == sql.orderings + [OrderingFragment(t.tableName, t.propertyPath, DirectionSql(d).value)]
  {
    var order :- DirectionSql(d);
    var target :- PropertyTarget(b, OrderingTable(b), propertyName, sql);
    var s := target.sql.(orderings := target.sql.orderings + [OrderingFragment(target.tableName, target.propertyPath, order)]);
    assert s.orderings[..|sql.orderings|] == sql.orderings;
    Ok(s)
  }

  /** The text one ordering appends to the statement as it stands. */
  function EntryText(b: Backend, o: (string, Direction), sql: Parts): string
    requires OrderingSql(b, o.0, o.1, sql).Ok?
  {
    OrderingSql(b, o.0, o.1, sql).value.orderings[|sql.orderings|]
  }

  /** The text one ordering entry contributes, which the joins gathered before it do not affect. */
  lemma OrderingIgnoresParts(b: Backend, o: (string, Direction), s1: Parts, s2: Parts)
    requires OrderingSql(b, o.0, o.1, s1).Ok?
    ensures OrderingSql(b, o.0, o.1, s2).Ok?
    ensures EntryText(b, o, s1) == EntryText(b, o, s2)
  {
    if b.query.source.SelectorSource? {
      ResolvePathIgnoresParts(b.catalog, b.query.queryType, o.0, s1, s2);
    }
  }

  /** `parseOrderings`: the entries in order, stopping at the first exception. */
  function OrderingsSql(b: Backend, orderings: seq<(string, Direction)>, sql: Parts): (r: Result<Parts, Error>)
    ensures (exists i :: 0 <= i < |orderings| && orderings[i].1.OtherDirection?) ==> r.Err?
    ensures r.Ok? ==> |r.value.orderings| == |sql.orderings| + |orderings|
    ensures r.Ok? ==> r.value == sql.(distinct := r.value.distinct, unions := r.value.unions, orderings := r.value.orderings)
    ensures r.Ok? ==> JoinsGrow(sql, r.value)
    ensures r.Ok? ==> r.value.orderings[..|sql.orderings|] == sql.orderings
    decreases |orderings|
  {
    if orderings == [] then Ok(sql)
    else
      var s :- OrderingSql(b, orderings[0].0, orderings[0].1, sql);
      var r := OrderingsSql(b, orderings[1..], s);
      assert forall i :: 1 <= i < |orderings| ==> orderings[i] == orderings[1..][i - 1];
      if r.Ok? then
        assert r.value.orderings[..|sql.orderings|] == s.orderings[..|sql.orderings|];
        r
      else r
  }

  /**
   * On success the orderings gain one entry per given ordering, in the given
   * order: entry i is the fragment of ordering i with its direction's keyword,
   * qualified with where its path leads from the statement as it was.
   */
  lemma OrderingsEntries(b: Backend, orderings: seq<(string, Direction)>, sql: Parts)
    requires OrderingsSql(b, orderings, sql).Ok?
    ensures forall i :: 0 <= i < |orderings| ==>
              && OrderingSql(b, orderings[i].0, orderings[i].1, sql).Ok?
              && OrderingsSql(b, orderings, sql).value.orderings[|sql.orderings| + i] == EntryText(b, orderings[i], sql)
  {
    forall i | 0 <= i < |orderings| {
      OrderingEntry(b, orderings, sql, i, |sql.orderings| + i);
    }
  }

  /** Entry i of the orderings, found at position `n` of the new orderings, one ordering at a time. */
  lemma {:induction false} OrderingEntry(b: Backend, orderings: seq<(string, Direction)>, sql: Parts, i: nat, n: nat)
    requires OrderingsSql(b, orderings, sql).Ok? && i < |orderings| && n == |sql.orderings| + i
    ensures OrderingSql(b, orderings[i].0, orderings[i].1, sql).Ok?
    ensures OrderingsSql(b, orderings, sql).value.orderings[n] == EntryText(b, orderings[i], sql)
    decreases i, 1
  {
    OrderingsUnfold(b, orderings, sql);
    if i == 0 {
      var s := OrderingSql(b, orderings[0].0, orderings[0].1, sql).value;
      var r := OrderingsSql(b, orderings, sql).value;
      assert r.orderings[..n + 1] == s.orderings;
      assert r.orderings[n] == r.orderings[..n + 1][n];
    } else {
      LaterOrderingEntry(b, orderings, sql, i, n);
    }
  }

  lemma {:induction false} LaterOrderingEntry(b: Backend, orderings: seq<(string, Direction)>, sql: Parts, i: nat, n: nat)
    requires OrderingsSql(b, orderings, sql).Ok? && 0 < i < |orderings| && n == |sql.orderings| + i
    ensures OrderingSql(b, orderings[i].0, orderings[i].1, sql).Ok?
    ensures OrderingsSql(b, orderings, sql).value.orderings[n] == EntryText(b, orderings[i], sql)
    decreases i, 0
  {
    OrderingsUnfold(b, orderings, sql);
    var s := OrderingSql(b, orderings[0].0, orderings[0].1, sql).value;
    var rest := orderings[1..];
    assert orderings[i] == rest[i - 1];
    OrderingEntry(b, rest, s, i - 1, n);
    OrderingIgnoresParts(b, rest[i - 1], s, sql);
  }

  /** One step of `parseOrderings`: the first entry, then the others on what it left. */
  lemma OrderingsUnfold(b: Backend, orderings: seq<(string, Direction)>, sql: Parts)
    requires OrderingsSql(b, orderings, sql).Ok? && orderings != []
    ensures OrderingSql(b, orderings[0].0, orderings[0].1, sql).Ok?
    ensures var s := OrderingSql(b, orderings[0].0, orderings[0].1, sql).value;
            && |s.orderings| == |sql.orderings| + 1
            && OrderingsSql(b, orderings, sql) == OrderingsSql(b, orderings[1..], s)
            && OrderingsSql(b, orderings, sql).value.orderings[..|s.orderings|] == s.orderings
  {
  }

  /** The `foreach` of `parseOrderings`, with the join loop for a selector source. */
  method ParseOrderings(b: Backend, orderings: seq<(string, Direction)>, sql: Parts) returns (r: Result<Parts, Error>)
    ensures r == OrderingsSql(b, orderings, sql)
  {
    var parts := sql;
    for i := 0 to |orderings|
      invariant OrderingsSql(b, orderings[i..], parts) == OrderingsSql(b, orderings, sql)
    {
      assert orderings[i..][1..] == orderings[i + 1..];
      var (propertyName, d) := orderings[i];
      var order := DirectionSql(d);
      if order.Err? {
        return Err(order.error);
      }
      var target: Result<JoinStep, Error>;
      if b.query.source.SelectorSource? {
        target := ResolvePropertyPath(b.catalog, b.query.queryType, propertyName, parts);
      } else {
        target := Ok(JoinStep(b.query.source.left.selectorName, propertyName, parts));
      }
      if target.Err? {
        return Err(target.error);
      }
      var t := target.value;
      parts := t.sql.(orderings := t.sql.orderings + [OrderingFragment(t.tableName, t.propertyPath, order.value)]);
    }
    assert orderings[|orderings|..] == [];
    r := Ok(parts);
  }

  // ----------------------------------------------------------------- query

  /** The table names `parseQuery` visits: the keys of `tables + unions`. */
  function TableNames(sql: Parts): seq<string> {
    UnionKeys(sql.tables, sql.unions)
  }

  /** `is_string($tableName) && strlen($tableName) > 0`; a numeric key has become an integer. */
  predicate GetsScope(tableName: string) {
    |tableName| > 0 && !IsCanonicalInteger(tableName)
  }

  /** The scope clauses of every named table, in order. */
  function ScopeSql(b: Backend, names: seq<string>, sql: Parts): (r: Result<Parts, Error>)
    ensures r.Ok? ==> r.value == sql.(additionalWhereClause := r.value.additionalWhereClause)
    ensures r.Ok? ==> IsPrefix(sql.additionalWhereClause, r.value.additionalWhereClause)
    ensures (forall i :: 0 <= i < |names| ==> names[i] !in b.catalog.ctrl) ==> r == Ok(sql)
    decreases |names|
  {
    if names == [] then Ok(sql)
    else
      var s :- if GetsScope(names[0]) then AdditionalWhereClause(b, names[0], sql) else Ok(sql);
      assert forall i :: 0 <= i < |names[1..]| ==> names[1..][i] == names[i + 1];
      var r := ScopeSql(b, names[1..], s);
      if r.Ok? then
        assert r.value.additionalWhereClause[..|sql.additionalWhereClause|]
            == s.additionalWhereClause[..|sql.additionalWhereClause|];
        r
      else r
  }

  /** The loop of `parseQuery` over the table names. */
  method AddScopeClauses(b: Backend, names: seq<string>, sql: Parts) returns (r: Result<Parts, Error>)
    ensures r == ScopeSql(b, names, sql)
  {
    var parts := sql;
    for i := 0 to |names|
      invariant ScopeSql(b, names[i..], parts) == ScopeSql(b, names, sql)
    {
      assert names[i..][1..] == names[i + 1..];
      if GetsScope(names[i]) {
        var s := AdditionalWhereClause(b, names[i], parts);
        if s.Err? {
          return s;
        }
        parts := s.value;
      }
    }
    assert names[|names|..] == [];
    r := Ok(parts);
  }

  /** `parseQuery`: the statement parts and the parameters, or the first exception. */
  function QuerySql(b: Backend): (r: Result<Acc, Error>)
    ensures r.Ok? ==> |r.value.sql.orderings| == |b.query.orderings|
    ensures r.Ok? ==> r.value.sql.limit == ParseLimitAndOffset(b.query.limit, b.query.offset, EmptyParts).limit
  {
    var q := b.query;
    var s1 := SourceSql(b, q.source, EmptyParts);
    var a :- ConstraintSql(b, q.constraint, Acc(s1, []));
    var s2 :- OrderingsSql(b, q.orderings, a.sql);
    var s3 := ParseLimitAndOffset(q.limit, q.offset, s2);
    var s4 :- ScopeSql(b, TableNames(s3), s3);
    Ok(Acc(s4, a.parameters))
  }

  /** `parseQuery` as the backend runs it. */
  method ParseQuery(b: Backend) returns (r: Result<Acc, Error>)
    ensures r == QuerySql(b)
  {
    var q := b.query;
    var sql := SourceSql(b, q.source, EmptyParts);
    var a := ParseConstraint(b, q.constraint, Acc(sql, []));
    if a.Err? {
      return a;
    }
    var s := ParseOrderings(b, q.orderings, a.value.sql);
    if s.Err? {
      return Err(s.error);
    }
    var s3 := ParseLimitAndOffset(q.limit, q.offset, s.value);
    var s4 := AddScopeClauses(b, TableNames(s3), s3);
    if s4.Err? {
      return Err(s4.error);
    }
    r := Ok(Acc(s4.value, a.value.parameters));
  }
}
