/**
 * Relation traversal: `addUnionStatement` turns the first segment of a dotted
 * property path into LEFT JOIN fragments, and the `while (strpos(...))` loops
 * of the compiler repeat it until no dot is left.
 */
module Joins {
  import opened Outcomes
  import opened Strings
  import opened OrderedMaps
  import opened Schema
  import opened QueryModel
  import opened Clauses

  /**
   * `explode('.', s, 2)`: the text before the first dot and the text after it;
   * the second element reads as "" (an undefined index) when there is no dot.
   */
  function SplitFirst(s: string): (r: (string, string))
    ensures '.' in s ==> s == r.0 + "." + r.1 && '.' !in r.0
    ensures '.' !in s ==> r == (s, "")
  {
    match IndexOf(s, '.')
    case None => (s, "")
    case Some(k) =>
      assert s == s[..k] + "." + s[k + 1..];
      (s[..k], s[k + 1..])
  }

  /**
   * The field name and the remaining path of one traversal step. A group
   * field names its table in the path, so the field name then spans two
   * segments (`explode('.', path, 3)`).
   */
  function PathStep(c: Catalog, tableName: string, path: string): (r: (string, string)) {
    var (first, rest) := SplitFirst(path);
    if Field(c, tableName, first).isGroup then
      var (second, rest') := SplitFirst(rest);
      (first + "." + second, rest')
    else (first, rest)
  }

  /**
   * A step consumes the field name and the dot after it; for a group field
   * with a single dot the whole path is the field name and nothing remains.
   */
  lemma PathStepConsumes(c: Catalog, tableName: string, path: string)
    requires '.' in path
    ensures var (f, rest) := PathStep(c, tableName, path);
            && |rest| < |path|
            && (path == f + ("." + rest) || (f == path && rest == ""))
            && (!Field(c, tableName, SplitFirst(path).0).isGroup ==> '.' !in f)
  {
    var (first, rest) := SplitFirst(path);
    assert path == first + "." + rest;
    if Field(c, tableName, first).isGroup {
      var (second, rest') := SplitFirst(rest);
      if '.' in rest {
        assert rest == second + "." + rest';
        Regroup(first, second, rest');
      } else {
        assert second == rest && rest' == "";
      }
    } else {
      assert first + "." + rest == first + ("." + rest);
    }
  }

  lemma Regroup(a: string, b: string, c: string)
    ensures a + "." + (b + "." + c) == (a + "." + b) + ("." + c)
  {
  }

  /** `$tableName`, `$propertyPath` and `$sql` as `addUnionStatement` leaves them. */
  datatype JoinStep = JoinStep(tableName: string, propertyPath: string, sql: Parts)

  /** The condition both many-to-many joins carry when the field names an additional table-name condition. */
  function TableNamesSuffix(info: FieldInfo): string {
    if PhpEmpty(info.additionalTableNameCondition) then ""
    else " AND " + info.manyToManyTable + ".tablenames = '" + info.additionalTableNameCondition + "'"
  }

  /** The join of the relation table of a many-to-many field, before the condition. */
  function JunctionJoin(tableName: string, info: FieldInfo): string {
    var rel := info.manyToManyTable;
    "LEFT JOIN " + rel + " ON " + tableName + ".uid=" + rel + "." + (if info.isOppositeRelation then "uid_foreign" else "uid_local")
  }

  /** The join of the child table of a many-to-many field, before the condition. */
  function ChildJoin(info: FieldInfo, child: string): string {
    var rel := info.manyToManyTable;
    "LEFT JOIN " + child + " ON " + rel + "." + (if !info.isOppositeRelation then "uid_foreign" else "uid_local") + "=" + child + ".uid"
  }

  /** The join fragments of a many-to-many field, keyed by relation table and child table. */
  function ManyToManyUnions(unions: Entries, tableName: string, fieldName: string, info: FieldInfo, child: string): (r: Entries)
    ensures info.manyToManyTable != child ==>
              && Get(r, info.manyToManyTable) == Some(JunctionJoin(tableName, info) + TableNamesSuffix(info))
              && Get(r, child) == Some(ChildJoin(info, child) + TableNamesSuffix(info))
    ensures info.manyToManyTable == child ==>
              Get(r, child) == Some(ChildJoin(info, child) + TableNamesSuffix(info) + TableNamesSuffix(info))
    ensures forall k :: k != info.manyToManyTable && k != child ==> Get(r, k) == Get(unions, k)
  {
    var rel := info.manyToManyTable;
    var j, cj, suffix := JunctionJoin(tableName, info), ChildJoin(info, child), TableNamesSuffix(info);
    var u := Put(Put(unions, rel, j), child, cj);
    var r := if PhpEmpty(info.additionalTableNameCondition) then u else AppendTo(AppendTo(u, rel, suffix), child, suffix);
    JoinPairGets(unions, rel, j, child, cj, suffix, r);
    r
  }

  /** Two joins put under two keys, then the same suffix appended to both when it is not empty. */
  lemma JoinPairGets(m: Entries, a: string, va: string, c: string, vc: string, s: string, r: Entries)
    requires var u := Put(Put(m, a, va), c, vc);
             r == if s == "" then u else AppendTo(AppendTo(u, a, s), c, s)
    ensures a != c ==> Get(r, a) == Some(va + s) && Get(r, c) == Some(vc + s)
    ensures a == c ==> Get(r, c) == Some(vc + s + s)
    ensures forall k :: k != a && k != c ==> Get(r, k) == Get(m, k)
  {
    var u := Put(Put(m, a, va), c, vc);
    TwoPuts(m, a, va, c, vc);
    if s == "" {
      assert va + s == va && vc + s + s == vc && vc + s == vc;
    } else {
      TwoAppends(u, a, c, s);
    }
  }

  lemma TwoPuts(m: Entries, a: string, va: string, c: string, vc: string)
    ensures var r := Put(Put(m, a, va), c, vc);
            && (a != c ==> Get(r, a) == Some(va))
            && Get(r, c) == Some(vc)
            && forall k :: k != a && k != c ==> Get(r, k) == Get(m, k)
  {
  }

  lemma TwoAppends(m: Entries, a: string, c: string, s: string)
    ensures var r := AppendTo(AppendTo(m, a, s), c, s);
            && (a != c ==> Get(r, a) == Some(Get(m, a).GetOr("") + s) && Get(r, c) == Some(Get(m, c).GetOr("") + s))
            && (a == c ==> Get(r, c) == Some(Get(m, c).GetOr("") + s + s))
            && forall k :: k != a && k != c ==> Get(r, k) == Get(m, k)
  {
  }


  /** The join fragment of a to-one or to-many field. */
  function SingleUnion(tableName: string, fieldName: string, info: FieldInfo, child: string): string
    requires info.hasOne || info.hasMany
  {
    if info.hasOne then
      if info.hasRelationManyToOne || info.foreignField.None? then
        "LEFT JOIN " + child + " ON " + tableName + "." + fieldName + "=" + child + ".uid"
      else
        "LEFT JOIN " + child + " ON " + tableName + ".uid=" + child + "." + info.foreignField.value
    else if info.foreignField.Some? then
      "LEFT JOIN " + child + " ON " + tableName + ".uid=" + child + "." + info.foreignField.value
    else
      "LEFT JOIN " + child + " ON " + "(FIND_IN_SET(" + child + ".uid, " + tableName + "." + fieldName + "))"
  }

  /** `addUnionStatement`. */
  function AddUnionStatement(c: Catalog, tableName: string, propertyPath: string, sql: Parts): (r: Result<JoinStep, Error>)
    ensures var (f, rest) := PathStep(c, tableName, propertyPath);
            var info := Field(c, tableName, f);
            && (r.Err? <==> info.foreignTable.None? || !(info.hasOne || info.hasRelationManyToMany || info.hasMany))
            && (info.foreignTable.None? ==> r == Err(MissingRelationInformation(f, tableName)))
            && (r.Ok? ==>
                  && r.value.tableName == info.foreignTable.value
                  && r.value.propertyPath == rest
                  && r.value.sql.distinct
                  && r.value.sql == sql.(distinct := true, unions := r.value.sql.unions)
                  && r.value.tableName in Keys(r.value.sql.unions)
                  && (info.hasOne || !info.hasRelationManyToMany ==>
                        forall k :: k in Keys(r.value.sql.unions) <==> k in Keys(sql.unions) || k == r.value.tableName)
                  && (!info.hasOne && info.hasRelationManyToMany ==>
                        info.manyToManyTable in Keys(r.value.sql.unions)
                        && forall k :: k in Keys(r.value.sql.unions) <==>
                             k in Keys(sql.unions) || k == r.value.tableName || k == info.manyToManyTable)
                  && (UniqueKeys(sql.unions) ==> UniqueKeys(r.value.sql.unions))
                  && (info.hasOne || !info.hasRelationManyToMany ==>
                        && Get(r.value.sql.unions, r.value.tableName) == Some(SingleUnion(tableName, f, info, r.value.tableName))
                        && forall k :: k != r.value.tableName ==> Get(r.value.sql.unions, k) == Get(sql.unions, k))
                  && (!info.hasOne && info.hasRelationManyToMany ==>
                        r.value.sql.unions == ManyToManyUnions(sql.unions, tableName, f, info, r.value.tableName)))
  {
    var (f, rest) := PathStep(c, tableName, propertyPath);
    var info := Field(c, tableName, f);
    if info.foreignTable.None? then Err(MissingRelationInformation(f, tableName))
    else
      var child := info.foreignTable.value;
      if info.hasOne || (!info.hasRelationManyToMany && info.hasMany) then
        var unions := Put(sql.unions, child, SingleUnion(tableName, f, info, child));
        Ok(JoinStep(child, rest, sql.(distinct := true, unions := unions)))
      else if info.hasRelationManyToMany then
        var unions := ManyToManyUnions(sql.unions, tableName, f, info, child);
        Ok(JoinStep(child, rest, sql.(distinct := true, unions := unions)))
      else Err(UnknownRelationType(f))
  }

  /**
   * The effect of `while (strpos($propertyPath, '.') !== FALSE) addUnionStatement(...)`:
   * the table reached, the column path left and the accumulated joins, or the
   * first exception.
   */
  function ResolvePath(c: Catalog, tableName: string, propertyPath: string, sql: Parts): (r: Result<JoinStep, Error>)
    ensures r.Ok? ==> '.' !in r.value.propertyPath
    ensures r.Ok? ==> IsSuffix(r.value.propertyPath, propertyPath)
    ensures r.Ok? ==> r.value.sql == sql.(distinct := r.value.sql.distinct, unions := r.value.sql.unions)
    ensures r.Ok? && '.' in propertyPath ==> r.value.sql.distinct
    ensures r.Ok? && '.' !in propertyPath ==> r.value == JoinStep(tableName, propertyPath, sql)
    ensures r.Ok? ==> forall k :: k in Keys(sql.unions) ==> k in Keys(r.value.sql.unions)
    ensures r.Ok? && UniqueKeys(sql.unions) ==> UniqueKeys(r.value.sql.unions)
    decreases |propertyPath|
  {
    if '.' !in propertyPath then Ok(JoinStep(tableName, propertyPath, sql))
    else
      PathStepConsumes(c, tableName, propertyPath);
      match AddUnionStatement(c, tableName, propertyPath, sql)
      case Err(e) => Err(e)
      case Ok(step) =>
        var r := ResolvePath(c, step.tableName, step.propertyPath, step.sql);
        if r.Ok? then
          SuffixStep(r.value.propertyPath, step.propertyPath, c, tableName, propertyPath);
          r
        else r
  }

  lemma SuffixStep(p: string, rest: string, c: Catalog, tableName: string, path: string)
    requires '.' in path
    requires rest == PathStep(c, tableName, path).1
    requires IsSuffix(p, rest)
    ensures IsSuffix(p, path)
  {
    PathStepConsumes(c, tableName, path);
    SuffixThrough(p, PathStep(c, tableName, path).0, rest, path);
  }

  /** The part after a step's field is a suffix of the path it was taken from. */
  lemma SuffixThrough(p: string, f: string, rest: string, path: string)
    requires path == f + ("." + rest) || (f == path && rest == "")
    requires IsSuffix(p, rest)
    ensures IsSuffix(p, path)
  {
    if path == f + ("." + rest) {
      assert path == (f + ".") + rest;
      SuffixOfLonger(p, rest, f + ".");
    } else {
      assert path[|path| - |p|..] == [];
    }
  }

  /** A suffix of a string is a suffix of anything that string ends. */
  lemma SuffixOfLonger(p: string, rest: string, front: string)
    requires IsSuffix(p, rest)
    ensures IsSuffix(p, front + rest)
  {
    var w := front + rest;
    assert w[|w| - |rest|..] == rest;
    assert w[|w| - |p|..] == w[|w| - |rest|..][|rest| - |p|..];
  }

  /** Where the traversal ends, and whether it fails, depends on the catalog and the path, not on the joins gathered so far. */
  lemma {:induction false} ResolvePathIgnoresParts(c: Catalog, tableName: string, propertyPath: string, s1: Parts, s2: Parts)
    ensures ResolvePath(c, tableName, propertyPath, s1).Ok? <==> ResolvePath(c, tableName, propertyPath, s2).Ok?
    ensures ResolvePath(c, tableName, propertyPath, s1).Ok? ==>
              && ResolvePath(c, tableName, propertyPath, s1).value.tableName == ResolvePath(c, tableName, propertyPath, s2).value.tableName
              && ResolvePath(c, tableName, propertyPath, s1).value.propertyPath == ResolvePath(c, tableName, propertyPath, s2).value.propertyPath
    decreases |propertyPath|
  {
    if '.' in propertyPath {
      PathStepConsumes(c, tableName, propertyPath);
      var a1 := AddUnionStatement(c, tableName, propertyPath, s1);
      var a2 := AddUnionStatement(c, tableName, propertyPath, s2);
      if a1.Ok? {
        ResolvePathIgnoresParts(c, a1.value.tableName, a1.value.propertyPath, a1.value.sql, a2.value.sql);
      }
    }
  }

  /** The traversal loop itself, as the compiler runs it with `$tableName` and `$propertyName` by reference. */
  method ResolvePropertyPath(c: Catalog, tableName: string, propertyPath: string, sql: Parts)
    returns (r: Result<JoinStep, Error>)
    ensures r == ResolvePath(c, tableName, propertyPath, sql)
  {
    var table, path, parts := tableName, propertyPath, sql;
    while IndexOf(path, '.').Some?
      invariant ResolvePath(c, table, path, parts) == ResolvePath(c, tableName, propertyPath, sql)
      decreases |path|
    {
      PathStepConsumes(c, table, path);
      var step := AddUnionStatement(c, table, path, parts);
      if step.Err? {
        return Err(step.error);
      }
      table, path, parts := step.value.tableName, step.value.propertyPath, step.value.sql;
    }
    r := Ok(JoinStep(table, path, parts));
  }
}
