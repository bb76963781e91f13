/**
 * The per-table scope clauses `parseQuery` adds for every table of the
 * statement: record visibility (enable fields and the delete flag), the
 * language restriction and the storage-page restriction.
 */
module Scope {
  import opened Outcomes
  import opened Strings
  import opened Schema
  import opened QueryModel
  import opened Clauses

  /** `getFrontendConstraintStatement`. */
  function FrontendConstraintStatement(p: Producers, tableName: string, ignoreEnableFields: bool,
                                       enableFieldsToBeIgnored: seq<string>, includeDeleted: bool): (r: Result<string, Error>)
    ensures r.Err? <==> !ignoreEnableFields && includeDeleted
    ensures r.Err? ==> r.error == InconsistentVisibilitySettings
    ensures ignoreEnableFields && includeDeleted ==> r == Ok("")
  {
    if ignoreEnableFields && !includeDeleted then
      if |enableFieldsToBeIgnored| > 0 then Ok(p.frontendEnableFieldsIgnoring(tableName, enableFieldsToBeIgnored))
      else Ok(p.frontendDeleteClause(tableName))
    else if !ignoreEnableFields && !includeDeleted then Ok(p.frontendEnableFields(tableName))
    else if !ignoreEnableFields && includeDeleted then Err(InconsistentVisibilitySettings)
    else Ok("")
  }

  /** `getBackendConstraintStatement`: the enable fields unless ignored, then the delete clause unless deleted rows are wanted. */
  function BackendConstraintStatement(p: Producers, tableName: string, ignoreEnableFields: bool, includeDeleted: bool): (r: string)
    ensures ignoreEnableFields && includeDeleted ==> r == ""
    ensures !ignoreEnableFields && includeDeleted ==> r == p.backendEnableFields(tableName)
    ensures ignoreEnableFields && !includeDeleted ==> r == p.backendDeleteClause(tableName)
    ensures !ignoreEnableFields && !includeDeleted ==> r == p.backendEnableFields(tableName) + p.backendDeleteClause(tableName)
  {
    (if !ignoreEnableFields then p.backendEnableFields(tableName) else "")
    + (if !includeDeleted then p.backendDeleteClause(tableName) else "")
  }

  /**
   * The producers' statements start with " AND "; the compiler drops that
   * connective (characters 1 to 3 read "and" in any case) so that the clause
   * can be joined with its own ' AND '.
   */
  function StripLeadingAnd(s: string): (r: string)
    ensures |s| >= 4 && Lower(s[1..4]) == "and" ==> r == Substr(s, 5)
    ensures !(|s| >= 4 && Lower(s[1..4]) == "and") ==> r == s
    ensures IsSuffix(r, s)
  {
    if |s| >= 4 && Lower(s[1..4]) == "and" then Substr(s, 5) else s
  }

  /** A statement in the producers' usual form loses exactly its leading " AND " (in any letter case). */
  lemma StripsConnective(x: string, connective: string)
    requires |connective| == 5 && connective[0] == ' ' && connective[4] == ' '
    requires Lower(connective[1..4]) == "and"
    ensures StripLeadingAnd(connective + x) == x
  {
    var s := connective + x;
    assert s[1..4] == connective[1..4];
    assert s[5..] == x;
  }

  /** `addVisibilityConstraintStatement`: at most one clause, and none for a table without `ctrl`. */
  function VisibilityConstraint(b: Backend, tableName: string, sql: Parts): (r: Result<Parts, Error>)
    ensures tableName !in b.catalog.ctrl ==> r == Ok(sql)
    ensures r.Ok? ==> r.value == sql.(additionalWhereClause := r.value.additionalWhereClause)
    ensures r.Ok? ==> r.value.additionalWhereClause == sql.additionalWhereClause
                      || (exists c :: r.value.additionalWhereClause == sql.additionalWhereClause + [c])
    ensures r.Err? <==> tableName in b.catalog.ctrl && b.frontend && !b.query.settings.ignoreEnableFields && b.query.settings.includeDeleted
    ensures r.Err? ==> r.error == InconsistentVisibilitySettings
    ensures tableName in b.catalog.ctrl && !b.frontend ==>
              var s := b.query.settings;
              var st := BackendConstraintStatement(b.producers, tableName, s.ignoreEnableFields, s.includeDeleted);
              r == if PhpEmpty(st) then Ok(sql)
                   else Ok(sql.(additionalWhereClause := sql.additionalWhereClause + [StripLeadingAnd(st)]))
    ensures tableName in b.catalog.ctrl && b.frontend && r.Ok? ==>
              var s := b.query.settings;
              var st := FrontendConstraintStatement(b.producers, tableName, s.ignoreEnableFields, s.enableFieldsToBeIgnored, s.includeDeleted);
              st.Ok? && r == if PhpEmpty(st.value) then Ok(sql)
                             else Ok(sql.(additionalWhereClause := sql.additionalWhereClause + [StripLeadingAnd(st.value)]))
  {
    if tableName !in b.catalog.ctrl then Ok(sql)
    else
      var s := b.query.settings;
      var statement :-
        if b.frontend then FrontendConstraintStatement(b.producers, tableName, s.ignoreEnableFields, s.enableFieldsToBeIgnored, s.includeDeleted)
        else Ok(BackendConstraintStatement(b.producers, tableName, s.ignoreEnableFields, s.includeDeleted));
      if PhpEmpty(statement) then Ok(sql)
      else Ok(sql.(additionalWhereClause := sql.additionalWhereClause + [StripLeadingAnd(statement)]))
  }

  /** The part of the language clause that also admits untranslated default-language rows. */
  function UntranslatedRows(tableName: string, languageField: string, transOrigPointerField: string, delete: Option<string>): string {
    " OR (" + tableName + "." + languageField + "=0"
    + " AND " + tableName + ".uid NOT IN (SELECT " + tableName + "." + transOrigPointerField
    + " FROM " + tableName
    + " WHERE " + tableName + "." + transOrigPointerField + ">0"
    + " AND " + tableName + "." + languageField + ">0"
    + (if delete.Some? then " AND " + tableName + "." + delete.value + "=0" else "")
    + "))"
  }

  /** The rows of the current language and of all languages (-1). */
  function LanguageMatch(tableName: string, languageField: string, sysLanguageUid: int): string {
    tableName + "." + languageField + " IN (" + IntToString(sysLanguageUid) + ",-1)"
  }

  /** `addSysLanguageStatement`. */
  function SysLanguageStatement(c: Catalog, tableName: string, sysLanguageUid: int, sql: Parts): (r: Parts)
    ensures r == sql.(additionalWhereClause := r.additionalWhereClause)
    ensures (tableName in c.ctrl && c.ctrl[tableName].languageField.Some? && !PhpEmpty(c.ctrl[tableName].languageField.value))
            <==> |r.additionalWhereClause| == |sql.additionalWhereClause| + 1
    ensures |r.additionalWhereClause| == |sql.additionalWhereClause| + 1 ==>
              var ctrl := c.ctrl[tableName];
              var base := LanguageMatch(tableName, ctrl.languageField.value, sysLanguageUid);
              r.additionalWhereClause == sql.additionalWhereClause + [
                if ctrl.transOrigPointerField.Some? && sysLanguageUid > 0
                then "(" + (base + UntranslatedRows(tableName, ctrl.languageField.value, ctrl.transOrigPointerField.value, ctrl.delete)) + ")"
                else "(" + base + ")"]
    ensures |r.additionalWhereClause| != |sql.additionalWhereClause| + 1 ==> r == sql
  {
    if tableName in c.ctrl && c.ctrl[tableName].languageField.Some? && !PhpEmpty(c.ctrl[tableName].languageField.value) then
      var ctrl := c.ctrl[tableName];
      var lang := ctrl.languageField.value;
      var base := LanguageMatch(tableName, lang, sysLanguageUid);
      var clause := if ctrl.transOrigPointerField.Some? && sysLanguageUid > 0
        then base + UntranslatedRows(tableName, lang, ctrl.transOrigPointerField.value, ctrl.delete)
        else base;
      sql.(additionalWhereClause := sql.additionalWhereClause + ["(" + clause + ")"])
    else sql
  }

  function IdList(ids: seq<int>): (r: seq<string>)
    ensures |r| == |ids|
    ensures forall i :: 0 <= i < |ids| ==> r[i] == IntToString(ids[i])
  {
    seq(|ids|, i requires 0 <= i < |ids| => IntToString(ids[i]))
  }

  /** `addPageIdStatement`. */
  function PageIdStatement(c: Catalog, tableName: string, storagePageIds: seq<int>, sql: Parts): (r: Result<Parts, Error>)
    ensures var applies := tableName in c.ctrl && "pid" in Columns(c, tableName);
            && (!applies ==> r == Ok(sql))
            && (applies && c.ctrl[tableName].rootLevel == 1 ==>
                  r == Ok(sql.(additionalWhereClause := sql.additionalWhereClause + [tableName + ".pid = 0"])))
            && (applies && c.ctrl[tableName].rootLevel !in {0, 1} ==> r == Ok(sql))
            && (applies && c.ctrl[tableName].rootLevel == 0 ==>
                  (r.Err? <==> storagePageIds == [])
                  && (r.Err? ==> r.error == MissingStoragePageIds)
                  && (r.Ok? ==> r.value == sql.(additionalWhereClause :=
                        sql.additionalWhereClause + [tableName + ".pid IN (" + Join(", ", IdList(storagePageIds)) + ")"])))
  {
    if tableName in c.ctrl && "pid" in Columns(c, tableName) then
      var rootLevel := c.ctrl[tableName].rootLevel;
      if rootLevel != 0 then
        if rootLevel == 1 then Ok(sql.(additionalWhereClause := sql.additionalWhereClause + [tableName + ".pid = 0"]))
        else Ok(sql)
      else if storagePageIds == [] then Err(MissingStoragePageIds)
      else Ok(sql.(additionalWhereClause := sql.additionalWhereClause + [tableName + ".pid IN (" + Join(", ", IdList(storagePageIds)) + ")"]))
    else Ok(sql)
  }

  /** `addAdditionalWhereClause`: visibility, then language, then storage page. */
  function AdditionalWhereClause(b: Backend, tableName: string, sql: Parts): (r: Result<Parts, Error>)
    ensures r.Ok? ==> r.value == sql.(additionalWhereClause := r.value.additionalWhereClause)
    ensures r.Ok? ==> |sql.additionalWhereClause| <= |r.value.additionalWhereClause| <= |sql.additionalWhereClause| + 3
    ensures r.Ok? ==> r.value.additionalWhereClause[..|sql.additionalWhereClause|] == sql.additionalWhereClause
    ensures tableName !in b.catalog.ctrl ==> r == Ok(sql)
  {
    var s := b.query.settings;
    var v :- VisibilityConstraint(b, tableName, sql);
    var l := if s.respectSysLanguage then SysLanguageStatement(b.catalog, tableName, s.sysLanguageUid, v) else v;
    var r := if s.respectStoragePage then PageIdStatement(b.catalog, tableName, s.storagePageIds, l) else Ok(l);
    VisibilityGrows(b, tableName, sql);
    LanguageGrows(b.catalog, tableName, s.sysLanguageUid, v);
    PageGrows(b.catalog, tableName, s.storagePageIds, l);
    if r.Ok? then GrowsTrans(sql, v, l, r.value); r else r
  }

  /** `r` is `sql` with at most `n` more clauses appended, and nothing else changed. */
  ghost predicate Grows(sql: Parts, r: Parts, n: nat) {
    && r == sql.(additionalWhereClause := r.additionalWhereClause)
    && |sql.additionalWhereClause| <= |r.additionalWhereClause| <= |sql.additionalWhereClause| + n
    && r.additionalWhereClause[..|sql.additionalWhereClause|] == sql.additionalWhereClause
  }

  lemma VisibilityGrows(b: Backend, tableName: string, sql: Parts)
    ensures VisibilityConstraint(b, tableName, sql).Ok? ==> Grows(sql, VisibilityConstraint(b, tableName, sql).value, 1)
  {
  }

  lemma LanguageGrows(c: Catalog, tableName: string, sysLanguageUid: int, sql: Parts)
    ensures Grows(sql, sql, 1) && Grows(sql, SysLanguageStatement(c, tableName, sysLanguageUid, sql), 1)
  {
  }

  lemma PageGrows(c: Catalog, tableName: string, storagePageIds: seq<int>, sql: Parts)
    ensures Grows(sql, sql, 1)
    ensures PageIdStatement(c, tableName, storagePageIds, sql).Ok? ==> Grows(sql, PageIdStatement(c, tableName, storagePageIds, sql).value, 1)
  {
  }

  lemma GrowsTrans(a: Parts, b: Parts, c: Parts, d: Parts)
    requires Grows(a, b, 1) && Grows(b, c, 1) && Grows(c, d, 1)
    ensures Grows(a, d, 3)
  {
    var n := |a.additionalWhereClause|;
    assert c.additionalWhereClause[..n] == b.additionalWhereClause[..|b.additionalWhereClause|][..n];
    assert d.additionalWhereClause[..n] == c.additionalWhereClause[..|c.additionalWhereClause|][..n];
  }
}
