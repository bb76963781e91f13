/**
 * Every placeholder of the compiled statement belongs to one parameter.
 * `parseQuery` writes a '?' into a WHERE fragment exactly when it appends a
 * parameter, and into no other part of the statement. So as long as no
 * table, field, property or producer statement itself contains a '?', the
 * statement `buildQuery` assembles has as many marks as there are
 * parameters, and `replacePlaceholders` never raises its mismatch exception.
 */
module Placeholders {
  import opened Outcomes
  import opened Strings
  import opened OrderedMaps
  import opened Schema
  import opened QueryModel
  import opened Clauses
  import opened Joins
  import opened Scope
  import opened Compiler
  import opened Substitution
  import opened Counting

  // ------------------------------------------------------ clean inputs

  predicate NoMark(s: string) {
    '?' !in s
  }

  predicate OptionClean(o: Option<string>) {
    o.Some? ==> NoMark(o.value)
  }

  predicate InfoClean(i: FieldInfo) {
    && OptionClean(i.foreignTable) && OptionClean(i.foreignField)
    && NoMark(i.manyToManyTable) && NoMark(i.additionalTableNameCondition)
  }

  predicate CtrlClean(c: Ctrl) {
    OptionClean(c.languageField) && OptionClean(c.transOrigPointerField) && OptionClean(c.delete)
  }

  /** No table, field or column name the catalog hands out holds a mark. */
  predicate CatalogClean(c: Catalog) {
    && (forall k :: k in c.fields ==> InfoClean(c.fields[k]))
    && (forall t :: t in c.ctrl ==> CtrlClean(c.ctrl[t]))
  }

  /** No visibility statement holds a mark. */
  ghost predicate ProducersClean(p: Producers) {
    && (forall t :: NoMark(p.frontendEnableFields(t)))
    && (forall t, ignored :: NoMark(p.frontendEnableFieldsIgnoring(t, ignored)))
    && (forall t :: NoMark(p.frontendDeleteClause(t)))
    && (forall t :: NoMark(p.backendEnableFields(t)))
    && (forall t :: NoMark(p.backendDeleteClause(t)))
  }

  predicate SelectorClean(s: Selector) {
    NoMark(s.selectorName) && NoMark(s.nodeTypeName)
  }

  predicate SourceClean(s: Source)
    decreases s
  {
    match s
    case SelectorSource(selector) => SelectorClean(selector)
    case JoinSource(left, right, jc) =>
      && SelectorClean(left) && SourceClean(right)
      && NoMark(jc.selector1Name) && NoMark(jc.property1Name)
      && NoMark(jc.selector2Name) && NoMark(jc.property2Name)
  }

  /** The property names of the comparisons hold no mark; the compared values may hold anything. */
  predicate ConstraintClean(c: Constraint) {
    match c
    case NullConstraint => true
    case And(c1, c2) => ConstraintClean(c1) && ConstraintClean(c2)
    case Or(c1, c2) => ConstraintClean(c1) && ConstraintClean(c2)
    case Not(c1) => ConstraintClean(c1)
    case Comparison(o1, _, _) => NoMark(PropertyOf(o1))
  }

  predicate QueryClean(q: Query) {
    && NoMark(q.queryType) && NoMark(q.distinct)
    && SourceClean(q.source) && ConstraintClean(q.constraint)
    && (forall i :: 0 <= i < |q.orderings| ==> NoMark(q.orderings[i].0))
  }

  ghost predicate Clean(b: Backend) {
    CatalogClean(b.catalog) && ProducersClean(b.producers) && QueryClean(b.query)
  }

  /** What following a property needs: a clean catalog, query table and source. */
  predicate Context(b: Backend) {
    CatalogClean(b.catalog) && NoMark(b.query.queryType) && SourceClean(b.query.source)
  }

  /** The accumulator invariant: marks only in the WHERE fragments, as many as there are parameters. */
  predicate Aligned(a: Acc) {
    MarksOnlyInWhere(a.sql) && CountAll(a.sql.where) == |a.parameters|
  }

  // --------------------------------------------------------- helpers

  lemma PutClean(m: Entries, k: string, v: string)
    requires EntriesMarkFree(m) && NoMark(k) && NoMark(v)
    ensures EntriesMarkFree(Put(m, k, v))
  {
  }

  lemma AppendClean(m: Entries, k: string, s: string)
    requires EntriesMarkFree(m) && NoMark(k) && NoMark(s)
    ensures EntriesMarkFree(AppendTo(m, k, s))
  {
    var g := Get(m, k);
    if g.Some? {
      assert (k, g.value) in m;
    }
  }

  lemma {:induction false} CountAllAppend(ws: seq<string>, w: string)
    ensures CountAll(ws + [w]) == CountAll(ws) + Count(w, '?')
  {
    if ws == [] {
      assert [] + [w] == [w];
      assert [w][1..] == [];
    } else {
      assert (ws + [w])[1..] == ws[1..] + [w];
      CountAllAppend(ws[1..], w);
    }
  }

  lemma PathStepClean(c: Catalog, t: string, path: string)
    requires NoMark(path)
    ensures NoMark(PathStep(c, t, path).0) && NoMark(PathStep(c, t, path).1)
  {
    var (first, rest) := SplitFirst(path);
    if Field(c, t, first).isGroup {
      var (second, rest') := SplitFirst(rest);
      assert PathStep(c, t, path) == (first + "." + second, rest');
    }
  }

  lemma ManyToManyClean(unions: Entries, t: string, f: string, info: FieldInfo, child: string)
    requires EntriesMarkFree(unions) && NoMark(t) && NoMark(child) && InfoClean(info)
    ensures EntriesMarkFree(ManyToManyUnions(unions, t, f, info, child))
  {
    var rel := info.manyToManyTable;
    var parentKey := if info.isOppositeRelation then "uid_foreign" else "uid_local";
    var childKey := if !info.isOppositeRelation then "uid_foreign" else "uid_local";
    JoinWordsClean();
    var relJoin := "LEFT JOIN " + rel + " ON " + t + ".uid=" + rel + "." + parentKey;
    var childJoin := "LEFT JOIN " + child + " ON " + rel + "." + childKey + "=" + child + ".uid";
    assert NoMark(relJoin) && NoMark(childJoin);
    PutClean(unions, rel, relJoin);
    var u := Put(unions, rel, relJoin);
    PutClean(u, child, childJoin);
    var u' := Put(u, child, childJoin);
    var cond := info.additionalTableNameCondition;
    if !PhpEmpty(cond) {
      var suffix := " AND " + rel + ".tablenames = '" + cond + "'";
      assert NoMark(suffix);
      AppendClean(u', rel, suffix);
      AppendClean(AppendTo(u', rel, suffix), child, suffix);
    }
  }

  lemma SingleUnionClean(t: string, f: string, info: FieldInfo, child: string)
    requires info.hasOne || info.hasMany
    requires NoMark(t) && NoMark(f) && NoMark(child) && InfoClean(info)
    ensures NoMark(SingleUnion(t, f, info, child))
  {
    JoinWordsClean();
    assert NoMark("(FIND_IN_SET(") && NoMark(".uid, ") && NoMark("))");
  }

  /** The fixed words of the join fragments hold no mark. */
  lemma JoinWordsClean()
    ensures NoMark("LEFT JOIN ") && NoMark(" ON ") && NoMark(".uid=") && NoMark(".") && NoMark("=")
    ensures NoMark(".uid") && NoMark(" AND ") && NoMark(".tablenames = '") && NoMark("'")
    ensures NoMark("uid_foreign") && NoMark("uid_local")
  {
  }

  /** One join step keeps every name mark-free. */
  lemma AddUnionClean(c: Catalog, t: string, path: string, sql: Parts)
    requires CatalogClean(c) && NoMark(t) && NoMark(path) && MarksOnlyInWhere(sql)
    ensures var r := AddUnionStatement(c, t, path, sql);
            r.Ok? ==> MarksOnlyInWhere(r.value.sql) && NoMark(r.value.tableName) && NoMark(r.value.propertyPath)
  {
    PathStepClean(c, t, path);
    var (f, rest) := PathStep(c, t, path);
    var info := Field(c, t, f);
    assert InfoClean(info);
    if info.foreignTable.Some? {
      var child := info.foreignTable.value;
      if info.hasOne || (!info.hasRelationManyToMany && info.hasMany) {
        SingleUnionClean(t, f, info, child);
        PutClean(sql.unions, child, SingleUnion(t, f, info, child));
      } else if info.hasRelationManyToMany {
        ManyToManyClean(sql.unions, t, f, info, child);
      }
    }
  }

  lemma {:induction false} ResolvePathClean(c: Catalog, t: string, path: string, sql: Parts)
    requires CatalogClean(c) && NoMark(t) && NoMark(path) && MarksOnlyInWhere(sql)
    ensures var r := ResolvePath(c, t, path, sql);
            r.Ok? ==> MarksOnlyInWhere(r.value.sql) && NoMark(r.value.tableName) && NoMark(r.value.propertyPath)
    decreases |path|
  {
    if '.' in path {
      PathStepConsumes(c, t, path);
      AddUnionClean(c, t, path, sql);
      var step := AddUnionStatement(c, t, path, sql);
      if step.Ok? {
        ResolvePathClean(c, step.value.tableName, step.value.propertyPath, step.value.sql);
      }
    }
  }

  lemma PropertyTargetClean(b: Backend, joinTable: string, p: string, sql: Parts)
    requires Context(b) && NoMark(joinTable) && NoMark(p) && MarksOnlyInWhere(sql)
    ensures var r := PropertyTarget(b, joinTable, p, sql);
            r.Ok? ==> MarksOnlyInWhere(r.value.sql) && NoMark(r.value.tableName) && NoMark(r.value.propertyPath)
                      && r.value.sql.where == sql.where
  {
    if b.query.source.SelectorSource? {
      ResolvePathClean(b.catalog, b.query.queryType, p, sql);
    }
  }

  /** The fragment of a property comparison holds exactly one mark. */
  lemma FragmentMarks(t: string, col: string, op: string, vf: Option<string>)
    requires NoMark(t) && NoMark(col) && NoMark(op) && OptionClean(vf)
    ensures Count(OperandFragment(t, col, op, vf), '?') == 1
  {
    var column := if vf.None? then Qualified(t, col) else vf.value + "(" + Qualified(t, col) + ")";
    assert OperandFragment(t, col, op, vf) == column + (" " + op + " ?");
    CountConcat(column, " " + op + " ?", '?');
    assert " " + op + " ?" == (" " + op) + " ?";
    CountConcat(" " + op, " ?", '?');
    assert " ?"[1..] == "?";
  }

  // ------------------------------------------------- the constraint walk

  lemma PropertyMarks(b: Backend, p: string, operator: Operator, vf: Option<string>, acc: Acc)
    requires Context(b) && NoMark(p) && OptionClean(vf) && MarksOnlyInWhere(acc.sql)
    ensures var r := PropertySql(b, p, operator, vf, acc);
            r.Ok? ==> MarksOnlyInWhere(r.value.sql) && CountAll(r.value.sql.where) == CountAll(acc.sql.where) + 1
  {
    var joinTable := if b.query.source.JoinSource? then b.query.source.joinCondition.selector1Name else "";
    PropertyTargetClean(b, joinTable, p, acc.sql);
    var target := PropertyTarget(b, joinTable, p, acc.sql);
    var op := ResolveOperator(operator);
    if target.Ok? && op.Ok? {
      var t := target.value;
      FragmentMarks(t.tableName, t.propertyPath, op.value, vf);
      CountAllAppend(t.sql.where, OperandFragment(t.tableName, t.propertyPath, op.value, vf));
    }
  }

  lemma {:induction false} OperandMarks(b: Backend, operand: DynamicOperand, operator: Operator, vf: Option<string>, acc: Acc)
    requires Context(b) && NoMark(PropertyOf(operand)) && OptionClean(vf) && MarksOnlyInWhere(acc.sql)
    ensures var r := OperandSql(b, operand, operator, vf, acc);
            r.Ok? ==> MarksOnlyInWhere(r.value.sql) && CountAll(r.value.sql.where) == CountAll(acc.sql.where) + 1
    decreases operand
  {
    match operand
    case LowerCase(o) => OperandMarks(b, o, operator, Some("LOWER"), acc);
    case UpperCase(o) => OperandMarks(b, o, operator, Some("UPPER"), acc);
    case PropertyValue(p) => PropertyMarks(b, p, operator, vf, acc);
  }

  /** A comparison adds one mark exactly when it adds one parameter. */
  lemma ComparisonAligned(b: Backend, o1: DynamicOperand, op: Operator, o2: Value, acc: Acc)
    requires Context(b) && NoMark(PropertyOf(o1)) && Aligned(acc)
    ensures var r := ComparisonSql(b, o1, op, o2, acc);
            r.Ok? ==> Aligned(r.value)
  {
    if op == In {
      InAligned(b, o1, o2, acc);
    } else if op == Contains {
      var r := ContainsComparisonSql(b, o1, o2, acc);
      if r.Ok? {
        AddWhereAligned(acc, "1<>1");
      }
    } else {
      ScalarAligned(b, o1, op, o2, acc);
    }
  }

  lemma InAligned(b: Backend, o1: DynamicOperand, o2: Value, acc: Acc)
    requires Context(b) && NoMark(PropertyOf(o1)) && Aligned(acc)
    ensures var r := InComparisonSql(b, o1, o2, acc);
            r.Ok? ==> Aligned(r.value)
  {
    var items := InItems(IterableOf(o2));
    if items.Ok? {
      if items.value == [] {
        AddWhereAligned(acc, "1<>1");
      } else {
        OperandMarks(b, o1, In, None, acc);
      }
    }
  }

  lemma ScalarAligned(b: Backend, o1: DynamicOperand, op: Operator, o2: Value, acc: Acc)
    requires Context(b) && NoMark(PropertyOf(o1)) && Aligned(acc)
    ensures var r := ScalarComparisonSql(b, o1, op, o2, acc);
            r.Ok? ==> Aligned(r.value)
  {
    OperandMarks(b, o1, NullAware(op, o2), None, acc);
  }

  lemma AddWhereAligned(acc: Acc, fragment: string)
    requires Aligned(acc) && NoMark(fragment)
    ensures Aligned(AddWhere(acc, fragment))
  {
    CountAllAppend(acc.sql.where, fragment);
  }

  /** The whole constraint walk keeps marks and parameters in step. */
  lemma {:induction false} ConstraintAligned(b: Backend, c: Constraint, acc: Acc)
    requires Context(b) && ConstraintClean(c) && Aligned(acc)
    ensures var r := ConstraintSql(b, c, acc);
            r.Ok? ==> Aligned(r.value)
    decreases c, 1
  {
    match c
    case NullConstraint =>
    case And(_, _) => ConnectiveAligned(b, c, " AND ", acc);
    case Or(_, _) => ConnectiveAligned(b, c, " OR ", acc);
    case Not(c1) =>
      AddWhereAligned(acc, "NOT (");
      var a1 := AddWhere(acc, "NOT (");
      ConstraintAligned(b, c1, a1);
      var a2 := ConstraintSql(b, c1, a1);
      if a2.Ok? {
        AddWhereAligned(a2.value, ")");
      }
    case Comparison(o1, op, o2) => ComparisonAligned(b, o1, op, o2, acc);
  }

  lemma {:induction false} ConnectiveAligned(b: Backend, c: Constraint, word: string, acc: Acc)
    requires c.And? || c.Or?
    requires Context(b) && ConstraintClean(c) && Aligned(acc) && NoMark(word)
    ensures var r := Connective(b, c, word, acc);
            r.Ok? ==> Aligned(r.value)
    decreases c, 0
  {
    AddWhereAligned(acc, "(");
    var a1 := AddWhere(acc, "(");
    ConstraintAligned(b, c.constraint1, a1);
    var a2 := ConstraintSql(b, c.constraint1, a1);
    if a2.Ok? {
      AddWhereAligned(a2.value, word);
      var a3 := AddWhere(a2.value, word);
      ConstraintAligned(b, c.constraint2, a3);
      var a4 := ConstraintSql(b, c.constraint2, a3);
      if a4.Ok? {
        AddWhereAligned(a4.value, ")");
      }
    }
  }

  // ----------------------------------------- source, orderings, scope

  lemma {:induction false} SourceMarks(b: Backend, source: Source, sql: Parts)
    requires SourceClean(source) && NoMark(b.query.distinct) && MarksOnlyInWhere(sql)
    ensures MarksOnlyInWhere(SourceSql(b, source, sql))
    decreases source
  {
    match source
    case SelectorSource(selector) =>
      var t := selector.nodeTypeName;
      PutClean(sql.fields, t, t + ".*");
      PutClean(sql.tables, t, t);
      PutClean(Put(sql.fields, t, t + ".*"), t, t + "." + b.query.distinct);
    case JoinSource(left, right, jc) =>
      JoinLevelMarks(left, right, jc, sql);
      if right.JoinSource? {
        SourceMarks(b, right, JoinLevel(left, right, jc, sql));
      }
  }

  lemma JoinLevelMarks(left: Selector, right: Source, jc: EquiJoinCondition, sql: Parts)
    requires SourceClean(JoinSource(left, right, jc)) && MarksOnlyInWhere(sql)
    ensures MarksOnlyInWhere(JoinLevel(left, right, jc, sql))
  {
    var leftName := left.selectorName;
    var rightName := RightName(right);
    assert NoMark(rightName);
    assert NoMark(JoinOn(jc));
    if right.SelectorSource? {
      PutClean(sql.fields, leftName, rightName + ".*");
    }
    PutClean(sql.tables, leftName, leftName);
    PutClean(sql.unions, rightName, "LEFT JOIN " + rightName);
    AppendClean(Put(sql.unions, rightName, "LEFT JOIN " + rightName), rightName, JoinOn(jc));
  }

  lemma OrderingMarks(b: Backend, propertyName: string, d: Direction, sql: Parts)
    requires Context(b) && NoMark(propertyName) && MarksOnlyInWhere(sql)
    ensures var r := OrderingSql(b, propertyName, d, sql);
            r.Ok? ==> MarksOnlyInWhere(r.value) && r.value.where == sql.where
  {
    var r := OrderingSql(b, propertyName, d, sql);
    if r.Ok? {
      var order := DirectionSql(d).value;
      var leftName := if b.query.source.JoinSource? then b.query.source.left.selectorName else "";
      PropertyTargetClean(b, leftName, propertyName, sql);
      var t := PropertyTarget(b, leftName, propertyName, sql).value;
      var f := OrderingFragment(t.tableName, t.propertyPath, order);
      assert r.value == t.sql.(orderings := t.sql.orderings + [f]);
      OrderingFragmentClean(t.tableName, t.propertyPath, order);
      MarkFreeAppend(t.sql.orderings, f);
    }
  }

  lemma OrderingFragmentClean(t: string, col: string, order: string)
    requires NoMark(t) && NoMark(col) && NoMark(order)
    ensures NoMark(OrderingFragment(t, col, order))
  {
  }

  lemma MarkFreeAppend(ss: seq<string>, f: string)
    requires MarkFree(ss) && NoMark(f)
    ensures MarkFree(ss + [f])
  {
    assert forall i :: 0 <= i < |ss| ==> (ss + [f])[i] == ss[i];
  }

  lemma {:induction false} OrderingsMarks(b: Backend, orderings: seq<(string, Direction)>, sql: Parts)
    requires Context(b) && MarksOnlyInWhere(sql)
    requires forall i :: 0 <= i < |orderings| ==> NoMark(orderings[i].0)
    ensures var r := OrderingsSql(b, orderings, sql);
            r.Ok? ==> MarksOnlyInWhere(r.value) && r.value.where == sql.where
    decreases |orderings|
  {
    if orderings != [] {
      OrderingMarks(b, orderings[0].0, orderings[0].1, sql);
      var s := OrderingSql(b, orderings[0].0, orderings[0].1, sql);
      if s.Ok? {
        assert forall i :: 0 <= i < |orderings[1..]| ==> orderings[1..][i] == orderings[i + 1];
        OrderingsMarks(b, orderings[1..], s.value);
      }
    }
  }

  lemma VisibilityMarks(b: Backend, t: string, sql: Parts)
    requires ProducersClean(b.producers) && MarksOnlyInWhere(sql)
    ensures var r := VisibilityConstraint(b, t, sql);
            r.Ok? ==> MarksOnlyInWhere(r.value)
  {
    if t in b.catalog.ctrl {
      var s := b.query.settings;
      var p := b.producers;
      var statement :=
        if b.frontend then FrontendConstraintStatement(p, t, s.ignoreEnableFields, s.enableFieldsToBeIgnored, s.includeDeleted)
        else Ok(BackendConstraintStatement(p, t, s.ignoreEnableFields, s.includeDeleted));
      if statement.Ok? {
        assert NoMark(p.backendEnableFields(t)) && NoMark(p.backendDeleteClause(t));
        assert NoMark(statement.value);
        var stripped := StripLeadingAnd(statement.value);
        if '?' in stripped {
          SuffixChars(stripped, statement.value, '?');
        }
        assert MarkFree(sql.additionalWhereClause + [stripped]);
      }
    }
  }

  lemma LanguageMarks(c: Catalog, t: string, uid: int, sql: Parts)
    requires CatalogClean(c) && NoMark(t) && MarksOnlyInWhere(sql)
    ensures MarksOnlyInWhere(SysLanguageStatement(c, t, uid, sql))
  {
    var r := SysLanguageStatement(c, t, uid, sql);
    if |r.additionalWhereClause| == |sql.additionalWhereClause| + 1 {
      var ctrl := c.ctrl[t];
      assert CtrlClean(ctrl);
      LanguageClauseClean(t, ctrl, uid);
    }
  }

  lemma LanguageClauseClean(t: string, ctrl: Ctrl, uid: int)
    requires NoMark(t) && CtrlClean(ctrl) && ctrl.languageField.Some?
    ensures NoMark(LanguageMatch(t, ctrl.languageField.value, uid))
    ensures ctrl.transOrigPointerField.Some? ==>
              NoMark(UntranslatedRows(t, ctrl.languageField.value, ctrl.transOrigPointerField.value, ctrl.delete))
  {
    assert NoMark(IntToString(uid));
  }

  lemma PageIdMarks(c: Catalog, t: string, ids: seq<int>, sql: Parts)
    requires NoMark(t) && MarksOnlyInWhere(sql)
    ensures var r := PageIdStatement(c, t, ids, sql);
            r.Ok? ==> MarksOnlyInWhere(r.value)
  {
    var r := PageIdStatement(c, t, ids, sql);
    if r.Ok? && r.value != sql {
      var list := IdList(ids);
      assert MarkFree(list) by {
        forall i | 0 <= i < |list| ensures '?' !in list[i] {
          assert Bare(IntToString(ids[i]));
        }
      }
      JoinMarks(", ", list);
      assert NoMark(".pid = 0") && NoMark(".pid IN (") && NoMark(")");
      var clause := r.value.additionalWhereClause[|sql.additionalWhereClause|];
      assert clause == t + ".pid = 0" || clause == t + ".pid IN (" + Join(", ", list) + ")";
      assert r.value.additionalWhereClause == sql.additionalWhereClause + [clause];
      MarkFreeAppend(sql.additionalWhereClause, clause);
    }
  }

  lemma AdditionalWhereMarks(b: Backend, t: string, sql: Parts)
    requires CatalogClean(b.catalog) && ProducersClean(b.producers) && NoMark(t) && MarksOnlyInWhere(sql)
    ensures var r := AdditionalWhereClause(b, t, sql);
            r.Ok? ==> MarksOnlyInWhere(r.value)
  {
    var s := b.query.settings;
    VisibilityMarks(b, t, sql);
    var v := VisibilityConstraint(b, t, sql);
    if v.Ok? {
      LanguageMarks(b.catalog, t, s.sysLanguageUid, v.value);
      var l := if s.respectSysLanguage then SysLanguageStatement(b.catalog, t, s.sysLanguageUid, v.value) else v.value;
      PageIdMarks(b.catalog, t, s.storagePageIds, l);
    }
  }

  lemma {:induction false} ScopeMarks(b: Backend, names: seq<string>, sql: Parts)
    requires CatalogClean(b.catalog) && ProducersClean(b.producers) && MarkFree(names) && MarksOnlyInWhere(sql)
    ensures var r := ScopeSql(b, names, sql);
            r.Ok? ==> MarksOnlyInWhere(r.value)
    decreases |names|
  {
    if names != [] {
      if GetsScope(names[0]) {
        AdditionalWhereMarks(b, names[0], sql);
      }
      var s := if GetsScope(names[0]) then AdditionalWhereClause(b, names[0], sql) else Ok(sql);
      if s.Ok? {
        assert forall i :: 0 <= i < |names[1..]| ==> names[1..][i] == names[i + 1];
        ScopeMarks(b, names[1..], s.value);
      }
    }
  }

  lemma TableNamesClean(sql: Parts)
    requires MarksOnlyInWhere(sql)
    ensures MarkFree(TableNames(sql))
  {
    EntriesValues(sql.tables);
    EntriesValues(sql.unions);
    var names := TableNames(sql);
    forall i | 0 <= i < |names| ensures '?' !in names[i] {
      assert names[i] in Keys(sql.tables) || names[i] in Keys(sql.unions);
    }
  }

  // ------------------------------------------------------- the theorem

  /** Orderings, limit and scope clauses add no mark and leave the WHERE fragments alone. */
  lemma TailMarks(b: Backend, sql: Parts)
    requires Context(b) && ProducersClean(b.producers) && MarksOnlyInWhere(sql)
    requires forall i :: 0 <= i < |b.query.orderings| ==> NoMark(b.query.orderings[i].0)
    ensures var s2 := OrderingsSql(b, b.query.orderings, sql);
            s2.Ok? ==>
              var s3 := ParseLimitAndOffset(b.query.limit, b.query.offset, s2.value);
              var s4 := ScopeSql(b, TableNames(s3), s3);
              s4.Ok? ==> MarksOnlyInWhere(s4.value) && s4.value.where == sql.where
  {
    OrderingsMarks(b, b.query.orderings, sql);
    var s2 := OrderingsSql(b, b.query.orderings, sql);
    if s2.Ok? {
      var s3 := ParseLimitAndOffset(b.query.limit, b.query.offset, s2.value);
      TableNamesClean(s3);
      ScopeMarks(b, TableNames(s3), s3);
    }
  }

  /**
   * For clean inputs the compiled statement carries its marks only in the
   * WHERE fragments, as many as there are parameters.
   */
  lemma QueryMarksMatchParameters(b: Backend)
    requires Clean(b)
    ensures var r := QuerySql(b);
            r.Ok? ==> && MarksOnlyInWhere(r.value.sql)
                      && CountAll(r.value.sql.where) == |r.value.parameters|
                      && Count(BuildQuery(r.value.sql), '?') == |r.value.parameters|
  {
    var q := b.query;
    SourceMarks(b, q.source, EmptyParts);
    var s1 := SourceSql(b, q.source, EmptyParts);
    ConstraintAligned(b, q.constraint, Acc(s1, []));
    var a := ConstraintSql(b, q.constraint, Acc(s1, []));
    QueryTail(b);
    if a.Ok? {
      TailMarks(b, a.value.sql);
      if QuerySql(b).Ok? {
        AssembledMarks(a.value, QuerySql(b).value);
      }
    }
  }

  /** The steps of `parseQuery` after the constraint keep its WHERE fragments and parameters. */
  lemma QueryTail(b: Backend)
    ensures var a := ConstraintSql(b, b.query.constraint, Acc(SourceSql(b, b.query.source, EmptyParts), []));
            QuerySql(b).Ok? ==>
              && a.Ok?
              && var s2 := OrderingsSql(b, b.query.orderings, a.value.sql);
              && s2.Ok?
              && var s3 := ParseLimitAndOffset(b.query.limit, b.query.offset, s2.value);
              && var s4 := ScopeSql(b, TableNames(s3), s3);
              && s4.Ok?
              && QuerySql(b).value == Acc(s4.value, a.value.parameters)
  {
  }

  /** The finished statement of an aligned accumulator whose WHERE fragments and parameters are kept. */
  lemma AssembledMarks(a: Acc, r: Acc)
    requires Aligned(a) && MarksOnlyInWhere(r.sql) && r.sql.where == a.sql.where && r.parameters == a.parameters
    ensures MarksOnlyInWhere(r.sql) && CountAll(r.sql.where) == |r.parameters|
    ensures Count(BuildQuery(r.sql), '?') == |r.parameters|
  {
    BuildQueryMarks(r.sql);
  }

  /**
   * For clean inputs the placeholder mismatch never happens: the statement
   * `fetchResult` executes exists exactly when the query compiles, and every
   * mark is filled. When no rendered value holds a '?', none is left.
   */
  lemma CleanQueriesFill(b: Backend, quote: string -> string)
    requires Clean(b)
    ensures FetchStatement(b, quote).Ok? <==> QuerySql(b).Ok?
    ensures QuerySql(b).Ok? ==>
              var acc := QuerySql(b).value;
              && FetchStatement(b, quote).value == Fill(BuildQuery(acc.sql), acc.parameters, quote)
              && ((forall i :: 0 <= i < |acc.parameters| ==> '?' !in Render(acc.parameters[i], quote))
                  ==> '?' !in FetchStatement(b, quote).value)
  {
    QueryMarksMatchParameters(b);
    if QuerySql(b).Ok? {
      var acc := QuerySql(b).value;
      if forall i :: 0 <= i < |acc.parameters| ==> '?' !in Render(acc.parameters[i], quote) {
        FillLeavesNoMark(BuildQuery(acc.sql), acc.parameters, quote);
      }
    }
  }

  /** For clean inputs `countResult` succeeds exactly when the query compiles, with or without a limit. */
  lemma CleanQueriesCount(b: Backend, quote: string -> string, numRows: string -> nat, firstColumn: string -> Option<int>)
    requires Clean(b)
    ensures CountResult(b, quote, numRows, firstColumn).Ok? <==> QuerySql(b).Ok?
  {
    CleanQueriesFill(b, quote);
    QueryMarksMatchParameters(b);
    var r := QuerySql(b);
    if r.Ok? && LimitEmpty(r.value.sql.limit) {
      FirstTableClean(r.value.sql);
      CountWithoutLimit(b, quote, numRows, firstColumn);
    }
  }

  lemma FirstTableClean(sql: Parts)
    requires MarksOnlyInWhere(sql)
    ensures NoMark(FirstTable(sql))
  {
    if sql.tables != [] {
      assert sql.tables[0] in sql.tables;
    }
  }
}
